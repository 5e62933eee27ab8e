/** A session and its backend connection (internal/proxy/session.go): the
    handlers' steps, field by field, against the functions the multiplexing
    model is made of. */
module SessionConn {
  import opened Common
  import opened Environment
  import opened Multiplex
  import opened ConnPool
  import opened Statement
  import R = Routing

  lemma AttachedOk<E>(m: Server<E>, c: Link<E>, x: Client<E>)
    requires PairOk(m, c, x)
    ensures PairOk(m, c, x.(conn := Some(0)))
  {
  }

  /** What the world answers while a connection is prepared for a session, and
      when that fails: to the reset, the database and each of the SETs; whether
      the failure is one of the connection; and when it is given back, whether
      it is too old, and to the reset. */
  datatype Answers = Answers(reset: bool, useDB: bool, sets: nat -> bool, broken: bool, expired: bool, cleared: bool)

  /** Everything a connection needs to serve a session is answered. */
  predicate Prepares<E>(m: Server<E>, w: Answers, c: Link<E>, x: Client<E>) {
    var c1 := Cleared(m, c, x.varSig);
    && (c.varSig != x.varSig && c.varSig != "" ==> w.reset)
    && (x.db != "" && c1.boundDB != x.db ==> w.useDB)
    && (c1.varSig != x.varSig ==> forall i: nat :: i < |x.setStmts| ==> w.sets(i))
  }

  lemma CleanTx<E>(m: Server<E>, c: Link<E>)
    requires CleanLink(m, c)
    ensures !c.tx
  {
  }

  // Binding a database leaves the note on the variables.
  lemma ReboundNotes<E>(c: Link<E>, db: string)
    ensures Rebound(c, db).varSig == c.varSig
  {
  }

  lemma NothingToDo<E>(m: Server<E>, c: Link<E>, x: Client<E>)
    requires c.varSig == x.varSig && (x.db == "" || c.boundDB == x.db)
    ensures Cleared(m, c, x.varSig) == c && Prepared(m, c, x) == c
  {
  }

  datatype Failure = NoFailure | MySQLError | ConnectionError

  class Session<E> {
    ghost const m: Server<E>
    const mux: bool
    var conn: Conn?<E>
    var db: string
    var inTx: bool
    var pinned: bool
    var holdNext: bool
    var openStmts: nat
    var setStmts: seq<string>
    var varSig: string
    var lastWrite: int
    ghost var own: E            // what a dedicated connection would have
    ghost var untracked: bool
    ghost var lost: bool
    ghost var stale: nat

    constructor (ghost m: Server<E>, mux: bool)
      ensures this.m == m && this.mux == mux && conn == null && View() == Forgotten(m, View()).(db := "")
    {
      this.m, this.mux, conn, db, inTx, pinned, holdNext := m, mux, null, "", false, false, false;
      openStmts, setStmts, varSig, lastWrite, own, untracked, lost, stale := 0, [], "", 0, m.initial, false, false, 0;
    }

    /** The session as the multiplexing model sees it. */
    ghost function View(): Client<E>
      reads this
    {
      Client(if conn == null then None else Some(0), db, inTx, pinned, openStmts, setStmts, varSig, own, untracked, lost, stale)
    }

    /** And as its router sees it, the nodes by their pools. */
    ghost function Routed(): R.Session<ConnPool<E>>
      reads this, if conn == null then {} else {conn}
    {
      R.Session(if conn == null then None else Some(conn.owner), pinned, inTx, openStmts, holdNext, conn != null && conn.busy)
    }

    // What the session may do with its connection: it is open and not parked.
    ghost predicate Holds()
      reads this, if conn == null then {} else {conn, conn.owner}
    {
      conn != null ==> conn.owner.Valid() && conn.owner.m == m && conn in conn.owner.live && conn !in conn.owner.idle
    }

    method IsTracked(query: string) returns (known: bool)
      ensures known <==> query in setStmts
    {
      for i := 0 to |setStmts|
        invariant query !in setStmts[..i]
      {
        if setStmts[i] == query { return true; }
      }
      return false;
    }

    /** trackSet, after the statement has changed the connection: the session the
        model says, and its signature noted on the connection. */
    method TrackSet(query: string, act: SetAction, ghost q: Stmt<E>)
      requires varSig == Signature(setStmts)
      requires q.action == act && q.text == query && !q.pins && q.inTx == inTx
      modifies this`setStmts, this`varSig, this`pinned, this`own, this`untracked
      modifies if conn == null then {} else {conn}
      ensures View() == Tracked(m, old(View()), q)
      ensures conn != null ==>
                conn.View() == old(conn.View()).(varSig := if setStmts == old(setStmts) then old(conn.varSig) else varSig)
    {
      hide Signature, Change;
      own := Change(m, q, own);
      match act {
        case SetTrack =>
          var known := IsTracked(query);
          if known { return; }
          if |setStmts| >= MAX_TRACKED_SETS {
            pinned, untracked := true, true;
            return;
          }
          setStmts := setStmts + [query];
          varSig := Signature(setStmts);
          if conn != null { conn.varSig := varSig; }
        case SetPin => pinned, untracked := true, true;
        case _ =>
      }
    }

    /** trackSafety: the transaction flag from the keyword or from the status of
        the reply, the pin from what the statement leaves on its connection, the
        hold for a companion statement, and when the session last wrote. */
    method TrackSafety(kind: Kind, inTransaction: bool, leavesState: bool, companion: bool, now: int)
      modifies this`inTx, this`pinned, this`holdNext, this`lastWrite
      ensures inTx <==> inTransaction || kind.Begin? || (old(inTx) && !kind.Commit? && !kind.Rollback?)
      ensures pinned <==> old(pinned) || leavesState || kind.Unsafe?
      ensures holdNext <==> old(holdNext) || companion
      ensures lastWrite == if kind.Write? || kind.Commit? || kind.Rollback? then now else old(lastWrite)
      ensures Routed() == R.Tracked(old(Routed()), kind, R.Trace(leavesState, inTransaction, conn != null && conn.busy, companion))
    {
      match kind {
        case Begin => inTx := true;
        case Commit => inTx, lastWrite := false, now;
        case Rollback => inTx, lastWrite := false, now;
        case Write => lastWrite := now;
        case Unsafe => pinned := true;
        case _ =>
      }
      if inTransaction { inTx := true; }
      if leavesState { pinned := true; }
      if companion { holdNext := true; }
    }

    /** prepareConn: clears foreign variables, binds the database, replays the
        tracked SETs; any step can fail. A connection that already is as the
        session needs it is taken as it is. */
    method PrepareConn(c: Conn<E>, w: Answers) returns (ok: bool)
      requires c.owner.m == m
      modifies c
      ensures ok == Prepares(m, w, old(c.View()), View())
      ensures ok ==> c.View() == Prepared(m, old(c.View()), View())
      ensures old(c.varSig) == varSig && (db == "" || old(c.boundDB) == db) ==> ok && c.View() == old(c.View())
    {
      hide Replay, ResetLink, Replayed, Rebound, Cleared;
      ghost var was := c.View();
      if c.varSig == varSig && (db == "" || c.boundDB == db) { NothingToDo(m, was, View()); }
      ok := Cleanse(c, w.reset);
      if !ok { return; }
      ok := Bind(c, w.useDB);
      if !ok { return; }
      ReboundNotes(Cleared(m, was, varSig), db);
      ok := CatchUp(c, w.sets);
    }

    // Variables of another session are cleared.
    method Cleanse(c: Conn<E>, answered: bool) returns (ok: bool)
      requires c.owner.m == m
      modifies c
      ensures ok <==> (old(c.varSig) != varSig && old(c.varSig) != "" ==> answered)
      ensures ok ==> c.View() == Cleared(m, old(c.View()), varSig)
    {
      hide ResetLink;
      if c.varSig != varSig && c.varSig != "" {
        ok := c.owner.ResetConn(c, answered);
        return;
      }
      return true;
    }

    // The session's database, unless it is bound already.
    method Bind(c: Conn<E>, answered: bool) returns (ok: bool)
      modifies c
      ensures ok <==> (db != "" && old(c.boundDB) != db ==> answered)
      ensures ok ==> c.View() == Rebound(old(c.View()), db)
    {
      if db != "" && c.boundDB != db {
        ok := c.UseDB(db, answered);
        if !ok { return; }
        c.boundDB := db;
      }
      return true;
    }

    // The session's SETs, unless they have been applied already.
    method CatchUp(c: Conn<E>, answered: nat -> bool) returns (ok: bool)
      modifies c
      ensures ok <==> (old(c.varSig) != varSig ==> forall i: nat :: i < |setStmts| ==> answered(i))
      ensures ok ==> c.View() == Replayed(m, old(c.View()), setStmts, varSig)
    {
      hide Replay;
      if c.varSig != varSig {
        ok := ReplaySets(c, answered);
        if !ok { return; }
        c.varSig := varSig;
      }
      return true;
    }

    method ReplaySets(c: Conn<E>, answered: nat -> bool) returns (ok: bool)
      modifies c`backend
      ensures ok <==> forall i: nat :: i < |setStmts| ==> answered(i)
      ensures ok ==> c.View() == old(c.View()).(env := Replay(m, old(c.View()).env, setStmts),
                                                sets := old(c.View()).sets + setStmts)
    {
      ghost var was := c.View();
      assert was.sets + setStmts[..0] == was.sets;
      for i := 0 to |setStmts|
        invariant c.View() == was.(env := Replay(m, was.env, setStmts[..i]), sets := was.sets + setStmts[..i])
        invariant forall k: nat :: k < i ==> answered(k)
      {
        ok := c.ExecuteSet(m, setStmts[i], answered(i));
        if !ok { return false; }
        assert setStmts[..i + 1][..i] == setStmts[..i];
        assert was.sets + setStmts[..i + 1] == was.sets + setStmts[..i] + [setStmts[i]];
      }
      assert setStmts[..|setStmts|] == setStmts;
      return true;
    }

    /** releasable: nothing of the session lives on its connection. */
    method IsReleasable() returns (r: bool)
      ensures r <==> !pinned && !inTx && openStmts == 0 && (conn != null ==> !conn.busy)
      ensures r && conn != null ==> Releasable(View(), conn.View())
      ensures r == R.Releasable(Routed())
    {
      if pinned || inTx || openStmts > 0 { return false; }
      if conn == null { return true; }
      return !conn.busy;
    }

    /** maybeRelease: the connection goes back as it is, when nothing of the
        session lives on it and no companion statement is expected; an expected
        one holds it for one more call. */
    method MaybeRelease(expired: bool)
      requires Holds()
      modifies this`conn, this`holdNext
      modifies if conn == null then {} else {conn.owner}
      ensures Holds()
      ensures var free := mux && old(conn) != null && Releasable(old(View()), old(conn.View()));
              && (conn == null <==> old(conn) == null || (free && !old(holdNext)))
              && (conn != null ==> conn == old(conn))
              && holdNext == (old(holdNext) && !free)
      ensures Routed() == R.Released(old(Routed()), mux)
      ensures old(conn) != null && conn == null ==>
                if old(conn.owner.closed) || expired then old(conn) !in old(conn).owner.live
                else old(conn).owner.idle == old(conn.owner.idle) + [old(conn)]
    {
      if !mux || conn == null { return; }
      var free := IsReleasable();
      if !free { return; }
      if holdNext {
        holdNext := false;
        return;
      }
      var c := conn;
      conn := null;
      c.owner.ReleaseClean(c, expired);
    }

    /** finish: only a connection-level failure costs the connection. */
    method Finish(failure: Failure)
      requires Holds()
      modifies this`conn, this`stale, this`lost
      modifies if conn == null then {} else {conn.owner}
      ensures Holds()
      ensures failure != ConnectionError ==> View() == old(View()) && conn == old(conn)
      ensures failure == ConnectionError ==> conn == null && Routed() == R.Gone(old(Routed()))
      ensures failure == ConnectionError && old(conn) != null ==>
                && old(conn) !in old(conn).owner.live
                && View() == old(View()).(conn := None, stale := old(stale) + old(conn.backend.stmts), lost := old(lost) || old(untracked))
    {
      if failure == NoFailure || conn == null { return; }
      if failure == ConnectionError {
        stale, lost := stale + conn.backend.stmts, lost || untracked;
        conn.owner.Discard(conn);
        conn := null;
      }
    }

    // The connection, if there is one, goes back reset, or is closed.
    method LetGo(expired: bool, answered: bool)
      requires Holds()
      modifies this`conn
      modifies if conn == null then {} else {conn, conn.owner}
      ensures conn == null && View() == old(View()).(conn := None)
      ensures old(conn) != null ==>
                if old(conn.owner.closed) || expired || !answered || |old(conn.owner.idle)| >= old(conn).owner.maxIdle
                then old(conn) !in old(conn).owner.live
                else old(conn).owner.idle == old(conn.owner.idle) + [old(conn)] && CleanLink(m, old(conn).View())
    {
      if conn != null {
        hide CleanLink, ResetLink, NoRepeats;
        ResetOk(m, conn.View());
        conn.owner.Release(conn, expired, answered);
        conn := null;
      }
    }

    method ResetState()
      modifies this`inTx, this`holdNext, this`openStmts, this`setStmts, this`varSig, this`pinned
      modifies this`own, this`untracked, this`lost, this`stale
      ensures View() == Forgotten(m, old(View())).(conn := View().conn) && !holdNext
    {
      inTx, holdNext, openStmts, setStmts, varSig, pinned := false, false, 0, [], "", false;
      own, untracked, lost, stale := m.initial, false, false, 0;
    }

    /** COM_RESET_CONNECTION and its resetState: the connection goes back reset,
        the session forgets everything but its database. */
    method Reset(expired: bool, answered: bool)
      requires Holds()
      modifies this
      modifies if conn == null then {} else {conn, conn.owner}
      ensures View() == Forgotten(m, old(View())) && conn == null && !holdNext && Routed() == R.Fresh()
      ensures old(conn) != null ==>
                if old(conn.owner.closed) || expired || !answered || |old(conn.owner.idle)| >= old(conn).owner.maxIdle
                then old(conn) !in old(conn).owner.live
                else old(conn).owner.idle == old(conn.owner.idle) + [old(conn)] && CleanLink(m, old(conn).View())
    {
      hide CleanLink, NoRepeats;
      LetGo(expired, answered);
      ResetState();
    }

    // A connection that could not be prepared: closed, or reset and parked.
    method PutBack(want: ConnPool<E>, c: Conn<E>, w: Answers)
      requires want.Valid() && want.m == m && c in want.live && c !in want.idle
      modifies want`idle, want`tokens, want`live, c
      ensures want.Valid() && (want.idle == old(want.idle) || (want.idle == old(want.idle) + [c] && CleanLink(m, c.View())))
      ensures want.idle == old(want.idle) <==> w.broken || want.closed || w.expired || !w.cleared || |old(want.idle)| >= want.maxIdle
    {
      hide CleanLink, ResetLink, NoRepeats;
      ResetOk(m, c.View());
      if w.broken { want.Discard(c); } else { want.Release(c, w.expired, w.cleared); }
    }

    // One attempt at taking a connection of a pool. A connection that fails
    // while being prepared is closed, and worth another attempt; a refused
    // database leaves it reset, or closed.
    method Attach(want: ConnPool<E>, h: Health<Conn<E>>, dialed: bool, w: Answers) returns (ok: bool, again: bool)
      requires want.Valid() && want.m == m && conn == null && ClientOk(m, View())
      requires forall c | c in want.idle :: CleanLink(m, c.View())
      modifies this`conn, want, set c | c in want.idle
      ensures want.Valid() && (forall c | c in want.idle :: CleanLink(m, c.View()))
      ensures forall c | c in want.idle :: c in old(want.idle) || fresh(c)
      ensures ok <==> conn != null
      ensures ok ==> Holds() && conn.owner == want && PairOk(m, conn.View(), View()) && !conn.View().tx
      ensures View() == old(View()).(conn := View().conn)
      ensures var offered := old(want.Offered(h, dialed));
              && (ok <==> offered.Some? && Prepares(m, w, offered.value, old(View())))
              && (again <==> offered.Some? && !ok && w.broken)
    {
      hide CleanLink, PairOk, ClientOk, NoRepeats, NewLink, Members, Prepares;
      ghost var offered := want.Offered(h, dialed);
      var c := want.Acquire(h, dialed);
      if c == null { return false, false; }
      if c !in old(want.live) { NewIsClean(m, 0); }
      ok, again := Equip(want, c, w);
    }

    // The connection taken, prepared for the session.
    method Equip(want: ConnPool<E>, c: Conn<E>, w: Answers) returns (ok: bool, again: bool)
      requires want.Valid() && want.m == m && conn == null && ClientOk(m, View())
      requires c in want.live && c !in want.idle && c.owner == want && CleanLink(m, c.View())
      modifies this`conn, want`idle, want`tokens, want`live, c
      ensures want.Valid() && (want.idle == old(want.idle) || (want.idle == old(want.idle) + [c] && CleanLink(m, c.View())))
      ensures ok <==> conn != null
      ensures ok ==> Holds() && conn.owner == want && PairOk(m, conn.View(), View()) && !conn.View().tx
      ensures View() == old(View()).(conn := View().conn)
      ensures ok == Prepares(m, w, old(c.View()), old(View())) && (again <==> !ok && w.broken)
    {
      NoConnection();
      hide *;
      PreparedOk(m, c.View(), View());
      CleanTx(m, c.View());
      PreparedTx(m, c.View(), View());
      ok := PrepareConn(c, w);
      if !ok {
        again := w.broken;
        PutBack(want, c, w);
        return;
      }
      Hold(c);
      again := false;
    }

    lemma NoConnection()
      requires conn == null
      ensures View().conn == None
    {
    }

    // A prepared connection is the session's own from now on.
    method Hold(c: Conn<E>)
      requires c.owner.Valid() && c.owner.m == m && c in c.owner.live && c !in c.owner.idle
      requires conn == null && PairOk(m, c.View(), View())
      modifies this`conn
      ensures conn == c && Holds() && PairOk(m, conn.View(), View()) && conn.View() == old(c.View()) && View() == old(View()).(conn := Some(0))
    {
      hide PairOk, NoRepeats;
      AttachedOk(m, c.View(), View());
      conn := c;
    }

    /** stickyActive: the session wrote a moment ago, and there is a replica that
        may not have that write. */
    method StickyActive(hasReplicas: bool, window: int, now: int) returns (r: bool)
      ensures r <==> lastWrite != 0 && hasReplicas && window > 0 && now - lastWrite < window
    {
      if lastWrite == 0 || !hasReplicas { return false; }
      return window > 0 && now - lastWrite < window;
    }

    /** route: where the session's connection is when something of the session
        lives on it; else the primary for writes, in transactions, and just
        after a write; else the reader in turn. Nothing when the primary takes
        no writes. A session moves only when nothing of it stays behind. */
    method Route(kind: Kind, primary: ConnPool<E>, reader: ConnPool<E>, accepts: bool, hasReplicas: bool, window: int, now: int)
        returns (want: ConnPool?<E>)
      ensures var sticky := lastWrite != 0 && hasReplicas && window > 0 && now - lastWrite < window;
              R.Route(Routed(), kind, R.Now(primary, accepts, sticky, reader)) == if want == null then None else Some(want)
      ensures want != null && conn != null && conn.owner != want ==> Releasable(View(), conn.View())
    {
      var free := IsReleasable();
      if conn != null && (!free || holdNext) { return conn.owner; }
      if WriteBound(kind) || inTx {
        if !accepts { return null; }
        return primary;
      }
      match kind {
        case Select | Other =>
          var sticky := StickyActive(hasReplicas, window, now);
          if sticky { return primary; }
          return reader;
        case _ => return primary;
      }
    }

    // writeBound.
    predicate WriteBound(kind: Kind) { kind.Write? || kind.Begin? || kind.Commit? || kind.Rollback? || kind.Unsafe? }

    /** backend: the session's connection when it is on the node wanted, else one
        of that node, prepared; a connection the session leaves behind is parked
        clean or closed. */
    method Backend(want: ConnPool<E>, expired: bool, h: Health<Conn<E>>, dialed: bool, w: Answers,
                   h': Health<Conn<E>>, dialed': bool, w': Answers) returns (ok: bool)
      requires want.Valid() && want.m == m && ClientOk(m, View()) && Holds()
      requires forall c | c in want.idle :: CleanLink(m, c.View())
      requires conn != null ==> PairOk(m, conn.View(), View())
      requires conn != null && conn.owner != want ==> Releasable(View(), conn.View())
      modifies this`conn, want, set c | c in want.idle
      modifies if conn == null then {} else {conn.owner}
      ensures want.Valid() && (ok <==> conn != null)
      ensures ok ==> Holds() && conn.owner == want && PairOk(m, conn.View(), View())
      ensures ok ==> Routed() == R.On(old(Routed()), want)
      ensures old(conn) != null && old(conn.owner) == want ==> ok && conn == old(conn)
      ensures old(conn) != null && old(conn.owner) != want ==>
                && CleanLink(m, old(conn.View()))
                && if old(conn.owner.closed) || expired then old(conn) !in old(conn.owner).live
                   else old(conn.owner).idle == old(conn.owner.idle) + [old(conn)]
      ensures old(conn) == null || old(conn.owner) != want ==>
                var offered := old(want.Offered(h, dialed));
                && (offered.None? ==> !ok)
                && (offered.Some? && Prepares(m, w, offered.value, old(View()).(conn := None)) ==> ok)
                && (offered.Some? && ok ==> w.broken || Prepares(m, w, offered.value, old(View()).(conn := None)))
    {
      if conn != null {
        if conn.owner == want { return true; }
        Depart(expired);
      }
      hide CleanLink, PairOk, ClientOk, Prepares, Releasable, NoRepeats;
      ok := AttachTwice(want, h, dialed, w, h', dialed', w');
    }

    // The connection left behind on another node goes back as it is.
    method Depart(expired: bool)
      requires conn != null && Holds() && ClientOk(m, View()) && PairOk(m, conn.View(), View()) && Releasable(View(), conn.View())
      modifies this`conn, conn.owner
      ensures conn == null && View() == old(View()).(conn := None) && ClientOk(m, View())
      ensures CleanLink(m, old(conn.View()))
      ensures if old(conn.owner.closed) || expired then old(conn) !in old(conn.owner).live
              else old(conn.owner).idle == old(conn.owner.idle) + [old(conn)]
    {
      ReleasedOk(m, conn.View(), View());
      var c := conn;
      conn := null;
      c.owner.ReleaseClean(c, expired);
    }

    // A parked connection can fail to be prepared because it died while it was
    // parked: that is worth a second attempt.
    method AttachTwice(want: ConnPool<E>, h: Health<Conn<E>>, dialed: bool, w: Answers,
                       h': Health<Conn<E>>, dialed': bool, w': Answers) returns (ok: bool)
      requires want.Valid() && want.m == m && conn == null && ClientOk(m, View())
      requires forall c | c in want.idle :: CleanLink(m, c.View())
      modifies this`conn, want, set c | c in want.idle
      ensures want.Valid() && (ok <==> conn != null)
      ensures ok ==> Holds() && conn.owner == want && PairOk(m, conn.View(), View()) && !conn.View().tx
      ensures View() == old(View()).(conn := View().conn)
      ensures var offered := old(want.Offered(h, dialed));
              && (offered.None? ==> !ok)
              && (offered.Some? && Prepares(m, w, offered.value, old(View())) ==> ok)
              && (offered.Some? && ok ==> w.broken || Prepares(m, w, offered.value, old(View())))
    {
      hide CleanLink, PairOk, ClientOk, Prepares;
      var again: bool;
      ok, again := Attach(want, h, dialed, w);
      if !ok && again { ok, again := Attach(want, h', dialed', w'); }
    }
  }
}
