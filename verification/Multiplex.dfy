/** Client sessions sharing backend connections, over every interleaving
    (internal/proxy/session.go, internal/pool/pool.go). Each connection carries
    the state it really has on the backend; each session the environment a
    dedicated connection would have by now. */
module Multiplex {
  import opened Common
  import opened Environment

  /** Where a connection is: in its pool's idle buffer, in the pool's own hands
      (just dialed, checked before use or by keepalive, or being prepared), or
      with a session. */
  datatype Place = Parked | Out | Held(s: nat)

  /** A connection: what it is on the backend (env, db, tx, sticky, stmts), and
      what gora noted on it (varSig, boundDB). tx also stands for autocommit off;
      sticky for temporary tables, locks and user variables; sets are the SETs
      applied since it was dialed or reset. */
  datatype Link<E> = Link(owner: nat, env: E, db: string, tx: bool, sticky: bool, stmts: nat,
                          varSig: string, boundDB: string, sets: seq<string>, place: Place)

  /** A client session. own is the environment of a dedicated connection fed
      the same statements; untracked, that some cannot be replayed; lost, that
      it lost a connection after such a statement; stale, how many of its open
      handles belong to connections it lost. */
  datatype Client<E> = Client(conn: Option<nat>, db: string, inTx: bool, pinned: bool, openStmts: nat,
                              setStmts: seq<string>, varSig: string, own: E, untracked: bool, lost: bool, stale: nat)

  datatype Pool = Pool(idle: seq<nat>, tokens: nat, dialing: nat, max: nat)

  datatype State<E> = State(links: map<nat, Link<E>>, pools: seq<Pool>, clients: seq<Client<E>>, next: nat)

  datatype SetAction = SetNone | SetTrack | SetIgnore | SetPin

  /** A statement that succeeds: change is what a SET that cannot be replayed
      does to the variables, tx and sticky the state it leaves, pins what
      trackSafety detects, inTx the transaction flag trackSafety keeps. */
  datatype Stmt<!E> = Stmt(action: SetAction, text: string, change: E -> E, tx: bool, sticky: bool, pins: bool, inTx: bool)

  // --- the parts of a step ---

  function Change<E>(m: Server<E>, q: Stmt<E>, env: E): E {
    match q.action
    case SetTrack => m.apply(env, q.text)
    case SetPin => q.change(env)
    case _ => env
  }

  /** trackSet and trackSafety. */
  function Tracked<E>(m: Server<E>, x: Client<E>, q: Stmt<E>): Client<E> {
    var sets := if q.action.SetTrack? && |x.setStmts| < MAX_TRACKED_SETS then Track(x.setStmts, q.text) else x.setStmts;
    var odd := q.action.SetPin? || (q.action.SetTrack? && q.text !in sets);
    x.(own := Change(m, q, x.own), setStmts := sets, varSig := Signature(sets), inTx := q.inTx,
       pinned := x.pinned || q.pins || odd, untracked := x.untracked || odd)
  }

  function Executed<E>(m: Server<E>, c: Link<E>, x: Client<E>, q: Stmt<E>): Link<E> {
    var x' := Tracked(m, x, q);
    var c' := c.(env := Change(m, q, c.env), tx := q.tx, sticky := c.sticky || q.sticky);
    if x'.setStmts == x.setStmts then c' else c'.(varSig := x'.varSig, sets := c.sets + [q.text])
  }

  /** ResetConn: the current database survives, but is forgotten. */
  function ResetLink<E>(m: Server<E>, c: Link<E>): Link<E> {
    c.(env := m.initial, tx := false, sticky := false, stmts := 0, varSig := "", boundDB := "", sets := [])
  }

  /** prepareConn. */
  function Prepared<E>(m: Server<E>, c: Link<E>, x: Client<E>): Link<E> {
    Replayed(m, Rebound(Cleared(m, c, x.varSig), x.db), x.setStmts, x.varSig)
  }

  function Cleared<E>(m: Server<E>, c: Link<E>, varSig: string): Link<E> {
    if c.varSig != varSig && c.varSig != "" then ResetLink(m, c) else c
  }

  function Rebound<E>(c: Link<E>, db: string): Link<E> {
    if db != "" && c.boundDB != db then c.(db := db, boundDB := db) else c
  }

  function Replayed<E>(m: Server<E>, c: Link<E>, sets: seq<string>, varSig: string): Link<E> {
    if c.varSig != varSig then c.(env := Replay(m, c.env, sets), varSig := varSig, sets := c.sets + sets) else c
  }

  predicate Releasable<E>(x: Client<E>, c: Link<E>) { !x.pinned && !x.inTx && x.openStmts == 0 && !c.tx }

  function NewLink<E>(m: Server<E>, p: nat, place: Place): Link<E> {
    Link(p, m.initial, "", false, false, 0, "", "", [], place)
  }

  /** resetState; the database stays. */
  function Forgotten<E>(m: Server<E>, x: Client<E>): Client<E> {
    Client(None, x.db, false, false, 0, [], "", m.initial, false, false, 0)
  }

  // --- the steps ---

  datatype Action<!E> =
    | DialStart(p: nat)                            // a token taken, a dial begun
    | DialFail(p: nat)
    | DialDone(p: nat)
    | TakeOut(p: nat, i: nat)                      // of the idle buffer, by Acquire or keepalive
    | PutBack(id: nat, reset: bool)                // parked again, or parked after a dial; reset if it could not be prepared
    | Discard(id: nat)                             // retired, dead, idle for too long, or broken
    | Attach(id: nat, s: nat)                      // prepared for a session
    | Exec(s: nat, q: Stmt<E>)
    | PrepareStmt(s: nat)
    | CloseStmt(s: nat, ofLost: bool)
    | UseDB(s: nat, db: string)
    | Release(s: nat, parked: bool)                // ReleaseClean, between two statements or on a move
    | Reset(s: nat, parked: bool)                  // COM_RESET_CONNECTION
    | Close(s: nat, parked: bool)
    | Lose(s: nat)                                 // a connection error

  predicate Attached<E>(t: State<E>, s: nat) {
    s < |t.clients| && t.clients[s].conn.Some? && t.clients[s].conn.value in t.links
    && t.links[t.clients[s].conn.value].owner < |t.pools| && t.pools[t.links[t.clients[s].conn.value].owner].tokens > 0
  }

  predicate HasIdle<E>(t: State<E>, p: nat, i: nat) {
    p < |t.pools| && i < |t.pools[p].idle| && t.pools[p].idle[i] in t.links
  }

  // Taken out of the buffer, or dialed, and in no other hands yet.
  predicate InHand<E>(t: State<E>, id: nat) {
    id in t.links && t.links[id].place.Out? && t.links[id].owner < |t.pools| && t.pools[t.links[id].owner].tokens > 0
  }

  predicate Dialing<E>(t: State<E>, p: nat) { p < |t.pools| && t.pools[p].dialing > 0 && t.pools[p].tokens > 0 }

  predicate Free<E>(t: State<E>, s: nat) { s < |t.clients| && t.clients[s].conn.None? }

  /** A statement leaves sticky state only when it is detected, a tracked SET has
      no NUL in it, and one sent again changes nothing. */
  ghost predicate Sound<E>(m: Server<E>, c: Link<E>, x: Client<E>, q: Stmt<E>) {
    && (q.sticky ==> q.pins)
    && (q.action.SetTrack? ==> Trackable(q.text) && (q.text in x.setStmts ==> m.apply(c.env, q.text) == c.env))
  }

  ghost predicate Enabled<E>(m: Server<E>, t: State<E>, a: Action<E>) {
    match a
    case DialStart(p) => p < |t.pools| && t.pools[p].tokens < t.pools[p].max
    case DialFail(p) => Dialing(t, p)
    case DialDone(p) => Dialing(t, p)
    case TakeOut(p, i) => HasIdle(t, p, i)
    case PutBack(id, _) => InHand(t, id)
    case Discard(id) => InHand(t, id)
    case Attach(id, s) => InHand(t, id) && Free(t, s)
    case Exec(s, q) => Attached(t, s) && Sound(m, t.links[t.clients[s].conn.value], t.clients[s], q)
    case PrepareStmt(s) => Attached(t, s)
    case CloseStmt(s, ofLost) =>
      s < |t.clients| && t.clients[s].openStmts > 0
      && if ofLost then t.clients[s].stale > 0 else Attached(t, s) && t.links[t.clients[s].conn.value].stmts > 0
    case UseDB(s, db) => s < |t.clients| && db != ""
    case Release(s, _) => Attached(t, s) && Releasable(t.clients[s], t.links[t.clients[s].conn.value])
    case Reset(s, _) => Attached(t, s) || Free(t, s)
    case Close(s, _) => Attached(t, s) || Free(t, s)
    case Lose(s) => Attached(t, s)
  }

  // A connection put in the idle buffer of its owner, as it now is.
  function ParkLink<E>(t: State<E>, id: nat, c: Link<E>): State<E>
    requires c.owner < |t.pools|
  {
    var pool := t.pools[c.owner];
    t.(links := t.links[id := c.(place := Parked)], pools := t.pools[c.owner := pool.(idle := pool.idle + [id])])
  }

  // A connection closed, its token given back.
  function CloseLink<E>(t: State<E>, id: nat, p: nat): State<E>
    requires p < |t.pools| && t.pools[p].tokens > 0
  {
    t.(links := t.links - {id}, pools := t.pools[p := t.pools[p].(tokens := t.pools[p].tokens - 1)])
  }

  // A session lets go of its connection: parked as c, or closed.
  function GiveBack<E>(t: State<E>, s: nat, x: Client<E>, c: Link<E>, parked: bool): State<E>
    requires Attached(t, s) && c.owner == t.links[t.clients[s].conn.value].owner
  {
    var id := t.clients[s].conn.value;
    var t := t.(clients := t.clients[s := x.(conn := None)]);
    if parked then ParkLink(t, id, c) else CloseLink(t, id, c.owner)
  }

  function Unparked(pool: Pool, i: nat): Pool
    requires i < |pool.idle|
  {
    pool.(idle := pool.idle[..i] + pool.idle[i + 1..])
  }

  function Update<E>(t: State<E>, s: nat, x: Client<E>, c: Link<E>): State<E>
    requires Attached(t, s)
  {
    t.(links := t.links[t.clients[s].conn.value := c], clients := t.clients[s := x])
  }

  function Next<E>(m: Server<E>, t: State<E>, a: Action<E>): State<E>
    requires Enabled(m, t, a)
  {
    match a
    case DialStart(p) =>
      var pool := t.pools[p];
      t.(pools := t.pools[p := pool.(tokens := pool.tokens + 1, dialing := pool.dialing + 1)])
    case DialFail(p) =>
      var pool := t.pools[p];
      t.(pools := t.pools[p := pool.(tokens := pool.tokens - 1, dialing := pool.dialing - 1)])
    case DialDone(p) =>
      var pool := t.pools[p];
      t.(links := t.links[t.next := NewLink(m, p, Out)], pools := t.pools[p := pool.(dialing := pool.dialing - 1)], next := t.next + 1)
    case TakeOut(p, i) =>
      var id := t.pools[p].idle[i];
      t.(links := t.links[id := t.links[id].(place := Out)], pools := t.pools[p := Unparked(t.pools[p], i)])
    case PutBack(id, reset) => ParkLink(t, id, if reset then ResetLink(m, t.links[id]) else t.links[id])
    case Discard(id) => CloseLink(t, id, t.links[id].owner)
    case Attach(id, s) =>
      var x := t.clients[s];
      t.(links := t.links[id := Prepared(m, t.links[id], x).(place := Held(s))], clients := t.clients[s := x.(conn := Some(id))])
    case Exec(s, q) =>
      var x, c := t.clients[s], t.links[t.clients[s].conn.value];
      Update(t, s, Tracked(m, x, q), Executed(m, c, x, q))
    case PrepareStmt(s) =>
      var x, c := t.clients[s], t.links[t.clients[s].conn.value];
      Update(t, s, x.(openStmts := x.openStmts + 1), c.(stmts := c.stmts + 1))
    case CloseStmt(s, ofLost) =>
      var x := t.clients[s];
      if ofLost then t.(clients := t.clients[s := x.(openStmts := x.openStmts - 1, stale := x.stale - 1)])
      else
        var c := t.links[x.conn.value];
        Update(t, s, x.(openStmts := x.openStmts - 1), c.(stmts := c.stmts - 1))
    case UseDB(s, db) =>
      var x := t.clients[s].(db := db);
      if Attached(t, s) then
        var c := t.links[x.conn.value];
        Update(t, s, x, c.(db := db, boundDB := db))
      else t.(clients := t.clients[s := x])
    case Release(s, parked) => GiveBack(t, s, t.clients[s], t.links[t.clients[s].conn.value], parked)
    case Reset(s, parked) =>
      var x := Forgotten(m, t.clients[s]);
      if Free(t, s) then t.(clients := t.clients[s := x])
      else GiveBack(t, s, x, ResetLink(m, t.links[t.clients[s].conn.value]), parked)
    case Close(s, parked) =>
      var x := Forgotten(m, t.clients[s]).(db := "");
      if Free(t, s) then t.(clients := t.clients[s := x])
      else GiveBack(t, s, x, ResetLink(m, t.links[t.clients[s].conn.value]), parked)
    case Lose(s) =>
      var x, c := t.clients[s], t.links[t.clients[s].conn.value];
      GiveBack(t, s, x.(stale := x.stale + c.stmts, lost := x.lost || x.untracked), c, false)
  }

  // --- what every reachable state keeps ---

  /** What gora noted on a connection describes its environment. */
  ghost predicate Described<E>(m: Server<E>, c: Link<E>) {
    c.varSig == Signature(c.sets) && AllTrackable(c.sets) && c.env == Replay(m, m.initial, c.sets)
  }

  /** A parked connection: clean, and described by its notes. */
  ghost predicate CleanLink<E>(m: Server<E>, c: Link<E>) {
    Described(m, c) && (c.boundDB != "" ==> c.db == c.boundDB) && !c.tx && !c.sticky && c.stmts == 0
  }

  ghost predicate ClientOk<E>(m: Server<E>, x: Client<E>) {
    && AllTrackable(x.setStmts) && x.varSig == Signature(x.setStmts)
    && (!x.untracked ==> x.own == Replay(m, m.initial, x.setStmts) && !x.lost)
    && (x.untracked ==> x.pinned) && x.stale <= x.openStmts
    && (x.conn.None? ==> x.stale == x.openStmts && (x.untracked ==> x.lost))
  }

  /** A connection and the session that holds it. */
  ghost predicate PairOk<E>(m: Server<E>, c: Link<E>, x: Client<E>) {
    && (c.boundDB != "" ==> c.db == c.boundDB) && (x.db != "" ==> c.boundDB == x.db)
    && (!x.untracked ==> Described(m, c) && c.sets == x.setStmts)
    && (!x.lost ==> c.env == x.own)
    && (c.sticky ==> x.pinned) && x.openStmts == c.stmts + x.stale
  }

  ghost function Owned<E>(links: map<nat, Link<E>>, p: nat): set<nat> { set id | id in links && links[id].owner == p }

  ghost predicate PoolOk<E>(t: State<E>, p: nat)
    requires p < |t.pools|
  {
    var pool := t.pools[p];
    && NoRepeats(pool.idle) && pool.tokens == |Owned(t.links, p)| + pool.dialing && pool.tokens <= pool.max
    && forall id :: id in pool.idle ==> id in t.links && t.links[id].owner == p && t.links[id].place == Parked
  }

  ghost predicate LinkOk<E>(m: Server<E>, t: State<E>, id: nat)
    requires id in t.links
  {
    var c := t.links[id];
    && id < t.next && c.owner < |t.pools|
    && match c.place
       case Parked => id in t.pools[c.owner].idle && CleanLink(m, c)
       case Out => CleanLink(m, c)
       case Held(s) => s < |t.clients| && t.clients[s].conn == Some(id)
  }

  ghost predicate SessionOk<E>(m: Server<E>, t: State<E>, s: nat)
    requires s < |t.clients|
  {
    var x := t.clients[s];
    && ClientOk(m, x)
    && (x.conn.Some? ==> x.conn.value in t.links && t.links[x.conn.value].place == Held(s) && PairOk(m, t.links[x.conn.value], x))
  }

  ghost predicate Inv<E>(m: Server<E>, t: State<E>) {
    && (forall p: nat :: p < |t.pools| ==> PoolOk(t, p))
    && (forall id :: id in t.links ==> LinkOk(m, t, id))
    && (forall s: nat :: s < |t.clients| ==> SessionOk(m, t, s))
  }

  // --- the parts of a step keep it ---

  lemma EmptySignature(sets: seq<string>)
    requires AllTrackable(sets)
    ensures Signature(sets) == "" <==> sets == []
  {
    SignatureShape(sets);
  }

  /** A clean connection, once prepared, is what the session would have had. */
  lemma PreparedOk<E>(m: Server<E>, c: Link<E>, x: Client<E>)
    requires CleanLink(m, c) && ClientOk(m, x) && x.conn.None?
    ensures PairOk(m, Prepared(m, c, x), x) && Prepared(m, c, x).owner == c.owner
  {
    var c1 := Cleared(m, c, x.varSig);
    ClearedOk(m, c, x.varSig);
    hide Cleared, Described;
    var c2 := Rebound(c1, x.db);
    DescribedSame(m, c1, c2);
    ReplayedOk(m, c2, x.setStmts, x.varSig);
  }

  lemma PreparedTx<E>(m: Server<E>, c: Link<E>, x: Client<E>)
    requires !c.tx
    ensures !Prepared(m, c, x).tx
  {
  }

  lemma ClearedOk<E>(m: Server<E>, c: Link<E>, varSig: string)
    requires CleanLink(m, c)
    ensures CleanLink(m, Cleared(m, c, varSig)) && Cleared(m, c, varSig).varSig in {varSig, ""}
    ensures Cleared(m, c, varSig).owner == c.owner
  {
  }

  // Nothing but the variables and their notes matters to the description.
  lemma DescribedSame<E>(m: Server<E>, c: Link<E>, c': Link<E>)
    requires Described(m, c) && c'.varSig == c.varSig && c'.sets == c.sets && c'.env == c.env
    ensures Described(m, c')
  {
  }

  lemma ReplayedOk<E>(m: Server<E>, c: Link<E>, sets: seq<string>, varSig: string)
    requires Described(m, c) && c.varSig in {varSig, ""} && AllTrackable(sets) && varSig == Signature(sets)
    ensures Described(m, Replayed(m, c, sets, varSig)) && Replayed(m, c, sets, varSig).sets == sets
  {
    EmptySignature(c.sets);
    if c.varSig == varSig {
      SignatureInjective(c.sets, sets);
    } else {
      assert [] + sets == sets;
    }
  }

  lemma AllTrackableMore(sets: seq<string>, text: string)
    requires AllTrackable(sets) && Trackable(text)
    ensures AllTrackable(sets + [text])
  {
  }

  lemma ExecutedOk<E>(m: Server<E>, c: Link<E>, x: Client<E>, q: Stmt<E>)
    requires PairOk(m, c, x) && ClientOk(m, x) && x.conn.Some? && Sound(m, c, x, q)
    ensures ClientOk(m, Tracked(m, x, q)) && PairOk(m, Executed(m, c, x, q), Tracked(m, x, q))
  {
    hide Signature, Replay, AllTrackable;
    var x' := Tracked(m, x, q);
    if q.action.SetTrack? {
      assert (x.setStmts + [q.text])[..|x.setStmts|] == x.setStmts;
      assert x.setStmts + [q.text] != x.setStmts;
      TrackReplays(m, x.setStmts, q.text);
      AllTrackableMore(x.setStmts, q.text);
    }
  }

  lemma ReleasedOk<E>(m: Server<E>, c: Link<E>, x: Client<E>)
    requires PairOk(m, c, x) && ClientOk(m, x) && Releasable(x, c)
    ensures CleanLink(m, c) && ClientOk(m, x.(conn := None))
  {
  }

  lemma ResetOk<E>(m: Server<E>, c: Link<E>)
    ensures CleanLink(m, ResetLink(m, c))
  {
  }

  // --- places ---

  lemma OwnedRemove<E>(links: map<nat, Link<E>>, id: nat, p: nat)
    requires id in links
    ensures |Owned(links - {id}, p)| == |Owned(links, p)| - if links[id].owner == p then 1 else 0
  {
    assert Owned(links - {id}, p) == Owned(links, p) - {id};
  }

  lemma OwnedAdd<E>(links: map<nat, Link<E>>, id: nat, c: Link<E>, p: nat)
    requires id !in links
    ensures |Owned(links[id := c], p)| == |Owned(links, p)| + if c.owner == p then 1 else 0
  {
    assert Owned(links[id := c], p) == Owned(links, p) + if c.owner == p then {id} else {};
  }

  lemma OwnedSame<E>(links: map<nat, Link<E>>, id: nat, c: Link<E>, p: nat)
    requires id in links && c.owner == links[id].owner
    ensures Owned(links[id := c], p) == Owned(links, p)
  {
  }

  lemma UpdateKeeps<E>(m: Server<E>, t: State<E>, s: nat, x: Client<E>, c: Link<E>)
    requires Inv(m, t) && Attached(t, s) && x.conn == t.clients[s].conn && ClientOk(m, x) && PairOk(m, c, x)
    requires c.owner == t.links[x.conn.value].owner && c.place == Held(s)
    ensures Inv(m, Update(t, s, x, c))
  {
    var t', id := Update(t, s, x, c), x.conn.value;
    assert SessionOk(m, t, s);
    forall p: nat | p < |t'.pools| ensures PoolOk(t', p) {
      assert PoolOk(t, p);
      OwnedSame(t.links, id, c, p);
    }
    forall k | k in t'.links ensures LinkOk(m, t', k) { assert LinkOk(m, t, k); }
    forall r: nat | r < |t'.clients| ensures SessionOk(m, t', r) { assert SessionOk(m, t, r); }
  }

  lemma CleanPlace<E>(m: Server<E>, c: Link<E>, place: Place)
    requires CleanLink(m, c)
    ensures CleanLink(m, c.(place := place))
  {
  }

  lemma GiveBackKeeps<E>(m: Server<E>, t: State<E>, s: nat, x: Client<E>, c: Link<E>, parked: bool)
    requires Inv(m, t) && Attached(t, s) && ClientOk(m, x.(conn := None)) && c.owner == t.links[t.clients[s].conn.value].owner
    requires parked ==> CleanLink(m, c)
    ensures Inv(m, GiveBack(t, s, x, c, parked))
  {
    if parked {
      CleanPlace(m, c, Parked);
      ParkKeeps(m, t, s, x, c);
    } else {
      CloseKeeps(m, t, s, x, c);
    }
  }

  lemma ParkKeeps<E>(m: Server<E>, t: State<E>, s: nat, x: Client<E>, c: Link<E>)
    requires Inv(m, t) && Attached(t, s) && ClientOk(m, x.(conn := None)) && c.owner == t.links[t.clients[s].conn.value].owner
    requires CleanLink(m, c.(place := Parked))
    ensures Inv(m, GiveBack(t, s, x, c, true))
  {
    hide CleanLink, PairOk, ClientOk;
    var t', id := GiveBack(t, s, x, c, true), t.clients[s].conn.value;
    assert SessionOk(m, t, s) && LinkOk(m, t, id);
    forall p: nat | p < |t'.pools| ensures PoolOk(t', p) {
      assert PoolOk(t, p);
      OwnedSame(t.links, id, c.(place := Parked), p);
    }
    forall k | k in t'.links ensures LinkOk(m, t', k) { assert LinkOk(m, t, k); }
    forall r: nat | r < |t'.clients| ensures SessionOk(m, t', r) { assert SessionOk(m, t, r); }
  }

  lemma CloseKeeps<E>(m: Server<E>, t: State<E>, s: nat, x: Client<E>, c: Link<E>)
    requires Inv(m, t) && Attached(t, s) && ClientOk(m, x.(conn := None)) && c.owner == t.links[t.clients[s].conn.value].owner
    ensures Inv(m, GiveBack(t, s, x, c, false))
  {
    hide CleanLink, PairOk, ClientOk;
    var t', id := GiveBack(t, s, x, c, false), t.clients[s].conn.value;
    assert SessionOk(m, t, s) && LinkOk(m, t, id);
    forall p: nat | p < |t'.pools| ensures PoolOk(t', p) {
      assert PoolOk(t, p);
      OwnedRemove(t.links, id, p);
    }
    forall k | k in t'.links ensures LinkOk(m, t', k) { assert LinkOk(m, t, k); }
    forall r: nat | r < |t'.clients| ensures SessionOk(m, t', r) { assert SessionOk(m, t, r); }
  }

  lemma Removed(ids: seq<nat>, i: nat)
    requires NoRepeats(ids) && i < |ids|
    ensures var r := ids[..i] + ids[i + 1..];
            NoRepeats(r) && forall id :: id in r <==> id in ids && id != ids[i]
  {
    var r := ids[..i] + ids[i + 1..];
    assert forall j :: 0 <= j < |r| ==> r[j] == if j < i then ids[j] else ids[j + 1];
    forall id | id in ids && id != ids[i] ensures id in r {
      var j :| 0 <= j < |ids| && ids[j] == id;
      assert r[if j < i then j else j - 1] == id;
    }
  }

  // What a session gets from a clean connection.
  lemma GetsClean<E>(m: Server<E>, t: State<E>, c: Link<E>, s: nat, id: nat)
    requires Inv(m, t) && Free(t, s) && CleanLink(m, c)
    ensures var x, c' := t.clients[s], Prepared(m, c, t.clients[s]);
            && ClientOk(m, x.(conn := Some(id))) && PairOk(m, c'.(place := Held(s)), x.(conn := Some(id)))
            && c'.owner == c.owner
  {
    assert SessionOk(m, t, s);
    hide Inv;
    PreparedOk(m, c, t.clients[s]);
    hide Prepared, CleanLink;
    HeldOk(m, Prepared(m, c, t.clients[s]), t.clients[s], id, s);
  }

  lemma HeldOk<E>(m: Server<E>, c: Link<E>, x: Client<E>, id: nat, s: nat)
    requires PairOk(m, c, x) && ClientOk(m, x)
    ensures PairOk(m, c.(place := Held(s)), x.(conn := Some(id))) && ClientOk(m, x.(conn := Some(id)))
  {
  }

  lemma TakeOutKeeps<E>(m: Server<E>, t: State<E>, p: nat, i: nat)
    requires Inv(m, t) && HasIdle(t, p, i)
    ensures Inv(m, Next(m, t, TakeOut(p, i)))
  {
    var id, t' := t.pools[p].idle[i], Next(m, t, TakeOut(p, i));
    var c := t.links[id].(place := Out);
    assert PoolOk(t, p) && LinkOk(m, t, id);
    CleanPlace(m, t.links[id], Out);
    Removed(t.pools[p].idle, i);
    hide CleanLink, PairOk, ClientOk, Owned, NoRepeats;
    forall r: nat | r < |t'.pools| ensures PoolOk(t', r) {
      assert PoolOk(t, r);
      OwnedSame(t.links, id, c, r);
    }
    forall k | k in t'.links ensures LinkOk(m, t', k) { assert LinkOk(m, t, k); }
    forall r: nat | r < |t'.clients| ensures SessionOk(m, t', r) { assert SessionOk(m, t, r); }
  }

  lemma PutBackKeeps<E>(m: Server<E>, t: State<E>, id: nat, reset: bool)
    requires Inv(m, t) && InHand(t, id)
    ensures Inv(m, Next(m, t, PutBack(id, reset)))
  {
    var c := (if reset then ResetLink(m, t.links[id]) else t.links[id]).(place := Parked);
    assert LinkOk(m, t, id);
    ResetOk(m, t.links[id]);
    CleanPlace(m, if reset then ResetLink(m, t.links[id]) else t.links[id], Parked);
    assert ParkLink(t, id, c) == Next(m, t, PutBack(id, reset));
    hide CleanLink, ResetLink;
    ParkOut(m, t, id, c);
  }

  lemma ParkOut<E>(m: Server<E>, t: State<E>, id: nat, c: Link<E>)
    requires Inv(m, t) && InHand(t, id) && c.owner == t.links[id].owner && c.place == Parked && CleanLink(m, c)
    ensures Inv(m, ParkLink(t, id, c))
  {
    var t' := ParkLink(t, id, c);
    assert LinkOk(m, t, id) && c.(place := Parked) == c;
    hide CleanLink, PairOk, ClientOk, Owned;
    forall r: nat | r < |t'.pools| ensures PoolOk(t', r) {
      assert PoolOk(t, r);
      OwnedSame(t.links, id, c, r);
    }
    forall k | k in t'.links ensures LinkOk(m, t', k) { assert LinkOk(m, t, k); }
    forall r: nat | r < |t'.clients| ensures SessionOk(m, t', r) { assert SessionOk(m, t, r); }
  }

  lemma DiscardKeeps<E>(m: Server<E>, t: State<E>, id: nat)
    requires Inv(m, t) && InHand(t, id)
    ensures Inv(m, Next(m, t, Discard(id)))
  {
    var t' := Next(m, t, Discard(id));
    assert LinkOk(m, t, id);
    hide CleanLink, PairOk, ClientOk;
    forall r: nat | r < |t'.pools| ensures PoolOk(t', r) {
      assert PoolOk(t, r);
      OwnedRemove(t.links, id, r);
    }
    forall k | k in t'.links ensures LinkOk(m, t', k) { assert LinkOk(m, t, k); }
    forall r: nat | r < |t'.clients| ensures SessionOk(m, t', r) { assert SessionOk(m, t, r); }
  }

  lemma AttachKeeps<E>(m: Server<E>, t: State<E>, id: nat, s: nat)
    requires Inv(m, t) && InHand(t, id) && Free(t, s)
    ensures Inv(m, Next(m, t, Attach(id, s)))
  {
    hide CleanLink, PairOk, ClientOk, Prepared;
    var x := t.clients[s];
    assert LinkOk(m, t, id);
    GetsClean(m, t, t.links[id], s, id);
    HandOver(m, t, id, s, x.(conn := Some(id)), Prepared(m, t.links[id], x).(place := Held(s)));
  }

  lemma HandOver<E>(m: Server<E>, t: State<E>, id: nat, s: nat, x: Client<E>, c: Link<E>)
    requires Inv(m, t) && InHand(t, id) && Free(t, s)
    requires x.conn == Some(id) && ClientOk(m, x) && PairOk(m, c, x) && c.owner == t.links[id].owner && c.place == Held(s)
    ensures Inv(m, t.(links := t.links[id := c], clients := t.clients[s := x]))
  {
    hide CleanLink, PairOk, ClientOk, Owned, NoRepeats;
    var t' := t.(links := t.links[id := c], clients := t.clients[s := x]);
    forall r: nat | r < |t'.pools| ensures PoolOk(t', r) {
      assert PoolOk(t, r);
      OwnedSame(t.links, id, c, r);
    }
    forall k | k in t'.links ensures LinkOk(m, t', k) { assert LinkOk(m, t, k); }
    forall r: nat | r < |t'.clients| ensures SessionOk(m, t', r) { assert SessionOk(m, t, r); }
  }

  lemma NewIsClean<E>(m: Server<E>, p: nat)
    ensures CleanLink(m, NewLink(m, p, Parked)) && CleanLink(m, NewLink(m, p, Out))
  {
  }

  lemma DialDoneKeeps<E>(m: Server<E>, t: State<E>, p: nat)
    requires Inv(m, t) && Dialing(t, p)
    ensures Inv(m, Next(m, t, DialDone(p)))
  {
    var t', c := Next(m, t, DialDone(p)), NewLink(m, p, Out);
    NewIsClean(m, p);
    hide CleanLink, PairOk, ClientOk;
    assert t.next !in t.links by { assert t.next in t.links ==> LinkOk(m, t, t.next); }
    forall r: nat | r < |t'.pools| ensures PoolOk(t', r) {
      assert PoolOk(t, r);
      OwnedAdd(t.links, t.next, c, r);
    }
    forall k | k in t'.links ensures LinkOk(m, t', k) { assert k != t.next ==> LinkOk(m, t, k); }
    forall r: nat | r < |t'.clients| ensures SessionOk(m, t', r) { assert SessionOk(m, t, r); }
  }

  // Steps that touch only the counters of a pool, or a session with no connection.
  lemma QuietKeeps<E>(m: Server<E>, t: State<E>, t': State<E>)
    requires Inv(m, t) && t'.links == t.links && t'.next == t.next && |t'.pools| == |t.pools| && |t'.clients| == |t.clients|
    requires forall p: nat :: p < |t.pools| ==> t'.pools[p].idle == t.pools[p].idle && PoolOk(t', p)
    requires forall s: nat :: s < |t.clients| ==>
               t'.clients[s].conn == t.clients[s].conn && SessionOk(m, t', s)
    ensures Inv(m, t')
  {
    hide CleanLink, PairOk, ClientOk;
    forall k | k in t'.links ensures LinkOk(m, t', k) { assert LinkOk(m, t, k); }
  }

  lemma DialCounts<E>(m: Server<E>, t: State<E>, a: Action<E>)
    requires Inv(m, t) && Enabled(m, t, a) && (a.DialStart? || a.DialFail?)
    ensures Inv(m, Next(m, t, a))
  {
    var t' := Next(m, t, a);
    hide CleanLink, PairOk, ClientOk;
    forall p: nat | p < |t.pools| ensures PoolOk(t', p) { assert PoolOk(t, p); }
    forall s: nat | s < |t.clients| ensures SessionOk(m, t', s) { assert SessionOk(m, t, s); }
    QuietKeeps(m, t, t');
  }

  // A session that holds nothing changes.
  lemma ClientKeeps<E>(m: Server<E>, t: State<E>, s: nat, x: Client<E>)
    requires Inv(m, t) && Free(t, s) && x.conn.None? && ClientOk(m, x)
    ensures Inv(m, t.(clients := t.clients[s := x]))
  {
    var t' := t.(clients := t.clients[s := x]);
    hide CleanLink, PairOk, ClientOk;
    forall p: nat | p < |t.pools| ensures PoolOk(t', p) { assert PoolOk(t, p); }
    forall r: nat | r < |t.clients| ensures SessionOk(m, t', r) { assert SessionOk(m, t, r); }
    QuietKeeps(m, t, t');
  }

  lemma ExecKeeps<E>(m: Server<E>, t: State<E>, s: nat, q: Stmt<E>)
    requires Inv(m, t) && Enabled(m, t, Exec(s, q))
    ensures Inv(m, Next(m, t, Exec(s, q)))
  {
    var x, c := t.clients[s], t.links[t.clients[s].conn.value];
    assert SessionOk(m, t, s);
    ExecutedOk(m, c, x, q);
    hide Inv, Sound, PairOk, ClientOk;
    UpdateKeeps(m, t, s, Tracked(m, x, q), Executed(m, c, x, q));
  }

  lemma HandlesOk<E>(m: Server<E>, c: Link<E>, x: Client<E>, c': Link<E>, x': Client<E>)
    requires PairOk(m, c, x) && ClientOk(m, x) && x.conn.Some?
    requires c' == c.(stmts := c'.stmts) && x' == x.(openStmts := x'.openStmts)
    requires c'.stmts - c.stmts == x'.openStmts - x.openStmts
    ensures PairOk(m, c', x') && ClientOk(m, x')
  {
    if Described(m, c) { DescribedSame(m, c, c'); }
  }

  lemma HandleKeeps<E>(m: Server<E>, t: State<E>, a: Action<E>)
    requires Inv(m, t) && Enabled(m, t, a) && (a.PrepareStmt? || a.CloseStmt?)
    ensures Inv(m, Next(m, t, a))
  {
    hide Inv, Sound;
    if a.CloseStmt? && a.ofLost {
      LostHandleKeeps(m, t, a.s);
    } else {
      HandleMoves(m, t, a.s, if a.PrepareStmt? then 1 else -1);
    }
  }

  // One handle more, or one less, on both sides.
  lemma HandleMoves<E>(m: Server<E>, t: State<E>, s: nat, n: int)
    requires Inv(m, t) && Attached(t, s) && t.clients[s].openStmts + n >= 0 && t.links[t.clients[s].conn.value].stmts + n >= 0
    ensures var x, c := t.clients[s], t.links[t.clients[s].conn.value];
            Inv(m, Update(t, s, x.(openStmts := x.openStmts + n), c.(stmts := c.stmts + n)))
  {
    var x, c := t.clients[s], t.links[t.clients[s].conn.value];
    assert SessionOk(m, t, s);
    HandlesOk(m, c, x, c.(stmts := c.stmts + n), x.(openStmts := x.openStmts + n));
    hide Inv, PairOk, ClientOk;
    UpdateKeeps(m, t, s, x.(openStmts := x.openStmts + n), c.(stmts := c.stmts + n));
  }

  lemma LostHandleKeeps<E>(m: Server<E>, t: State<E>, s: nat)
    requires Inv(m, t) && Enabled(m, t, CloseStmt(s, true))
    ensures Inv(m, Next(m, t, CloseStmt(s, true)))
  {
    var x := t.clients[s];
    var x' := x.(openStmts := x.openStmts - 1, stale := x.stale - 1);
    var t' := t.(clients := t.clients[s := x']);
    assert SessionOk(m, t, s);
    assert ClientOk(m, x') && (x.conn.Some? ==> PairOk(m, t.links[x.conn.value], x'));
    hide CleanLink, PairOk, ClientOk;
    forall p: nat | p < |t.pools| ensures PoolOk(t', p) { assert PoolOk(t, p); }
    forall r: nat | r < |t.clients| ensures SessionOk(m, t', r) { assert SessionOk(m, t, r); }
    QuietKeeps(m, t, t');
  }

  lemma UseDBKeeps<E>(m: Server<E>, t: State<E>, s: nat, db: string)
    requires Inv(m, t) && Enabled(m, t, UseDB(s, db))
    ensures Inv(m, Next(m, t, UseDB(s, db)))
  {
    var x := t.clients[s].(db := db);
    assert SessionOk(m, t, s);
    if x.conn.Some? {
      var c := t.links[x.conn.value];
      assert LinkOk(m, t, x.conn.value) && PoolOk(t, c.owner) && x.conn.value in Owned(t.links, c.owner);
      var c' := c.(db := db, boundDB := db);
      assert ClientOk(m, x) && PairOk(m, c', x) by { if Described(m, c) { DescribedSame(m, c, c'); } }
      hide Inv, PairOk, ClientOk;
      UpdateKeeps(m, t, s, x, c');
    } else {
      ClientKeeps(m, t, s, x);
    }
  }

  lemma ForgetKeeps<E>(m: Server<E>, t: State<E>, s: nat, parked: bool, x: Client<E>, a: Action<E>)
    requires Inv(m, t) && Enabled(m, t, a) && (a == Reset(s, parked) || a == Close(s, parked))
    requires x == Forgotten(m, t.clients[s]) || x == Forgotten(m, t.clients[s]).(db := "")
    requires Next(m, t, a) == if Free(t, s) then t.(clients := t.clients[s := x])
                              else GiveBack(t, s, x, ResetLink(m, t.links[t.clients[s].conn.value]), parked)
    ensures Inv(m, Next(m, t, a))
  {
    assert ClientOk(m, x) && x.(conn := None) == x;
    if Free(t, s) {
      ClientKeeps(m, t, s, x);
    } else {
      ResetOk(m, t.links[t.clients[s].conn.value]);
      GiveBackKeeps(m, t, s, x, ResetLink(m, t.links[t.clients[s].conn.value]), parked);
    }
  }

  lemma LoseKeeps<E>(m: Server<E>, t: State<E>, s: nat)
    requires Inv(m, t) && Enabled(m, t, Lose(s))
    ensures Inv(m, Next(m, t, Lose(s)))
  {
    var x, c := t.clients[s], t.links[t.clients[s].conn.value];
    var x' := x.(stale := x.stale + c.stmts, lost := x.lost || x.untracked);
    assert SessionOk(m, t, s);
    assert ClientOk(m, x'.(conn := None));
    GiveBackKeeps(m, t, s, x', c, false);
  }

  lemma StepKeeps<E>(m: Server<E>, t: State<E>, a: Action<E>)
    requires Inv(m, t) && Enabled(m, t, a)
    ensures Inv(m, Next(m, t, a))
  {
    match a
    case DialStart(p) => DialCounts(m, t, a);
    case DialFail(p) => DialCounts(m, t, a);
    case DialDone(p) => DialDoneKeeps(m, t, p);
    case TakeOut(p, i) => TakeOutKeeps(m, t, p, i);
    case PutBack(id, reset) => PutBackKeeps(m, t, id, reset);
    case Discard(id) => DiscardKeeps(m, t, id);
    case Attach(id, s) => AttachKeeps(m, t, id, s);
    case Exec(s, q) => ExecKeeps(m, t, s, q);
    case PrepareStmt(s) => HandleKeeps(m, t, a);
    case CloseStmt(s, ofLost) => HandleKeeps(m, t, a);
    case UseDB(s, db) => UseDBKeeps(m, t, s, db);
    case Release(s, parked) =>
      assert SessionOk(m, t, s);
      ReleasedOk(m, t.links[t.clients[s].conn.value], t.clients[s]);
      GiveBackKeeps(m, t, s, t.clients[s], t.links[t.clients[s].conn.value], parked);
    case Reset(s, parked) => ForgetKeeps(m, t, s, parked, Forgotten(m, t.clients[s]), a);
    case Close(s, parked) => ForgetKeeps(m, t, s, parked, Forgotten(m, t.clients[s]).(db := ""), a);
    case Lose(s) => LoseKeeps(m, t, s);
  }
}
