/** One pool of backend connections (internal/pool/pool.go). Whether a dial, a
    ping or a reset succeeds, and whether a connection is too old, is decided
    by the world: its answers are parameters, and any answers are possible. */
module ConnPool {
  import opened Common
  import opened Environment
  import opened Multiplex

  /** A pooled connection: what gora notes on it, and what it is on the backend. */
  class Conn<E> {
    const owner: ConnPool<E>
    var boundDB: string
    var varSig: string
    var busy: bool              // in a transaction, or autocommit off: the flags of the last reply
    ghost var backend: Link<E>

    constructor (ghost m: Server<E>, owner: ConnPool<E>)
      ensures this.owner == owner && boundDB == "" && varSig == "" && !busy && backend == NewLink(m, 0, Parked)
    {
      this.owner := owner;
      boundDB, varSig, busy, backend := "", "", false, NewLink(m, 0, Parked);
    }

    /** COM_INIT_DB, if the backend answers; the caller notes the database. */
    method UseDB(name: string, answered: bool) returns (ok: bool)
      modifies `backend
      ensures ok == answered
      ensures backend == if ok then old(backend).(db := name) else old(backend)
    {
      if answered { backend := backend.(db := name); }
      return answered;
    }

    /** A SET statement, if the backend answers. */
    method ExecuteSet(ghost m: Server<E>, text: string, answered: bool) returns (ok: bool)
      modifies `backend
      ensures ok == answered
      ensures backend == if ok then old(backend).(env := m.apply(old(backend).env, text), sets := old(backend).sets + [text])
                         else old(backend)
    {
      if answered { backend := backend.(env := m.apply(backend.env, text), sets := backend.sets + [text]); }
      return answered;
    }

    /** The connection as the multiplexing model sees it. */
    ghost function View(): Link<E>
      reads this
    {
      backend.(varSig := varSig, boundDB := boundDB, tx := busy)
    }
  }

  // --- the idle buffer ---

  ghost function Members<E>(l: seq<Conn<E>>): set<Conn<E>> { set c | c in l }

  // What is left of all once the first k of l are gone.
  ghost function Left<E>(all: set<Conn<E>>, l: seq<Conn<E>>, k: nat): set<Conn<E>>
    requires k <= |l|
  {
    all - Members(l[..k])
  }

  lemma OneGone<E>(all: set<Conn<E>>, l: seq<Conn<E>>, k: nat)
    requires k < |l|
    ensures Left(all, l, k + 1) == Left(all, l, k) - {l[k]} && l[k..][0] == l[k] && l[k..][1..] == l[k + 1..]
  {
    assert l[..k + 1] == l[..k] + [l[k]];
  }

  lemma LeftIs<E>(all: set<Conn<E>>, l: seq<Conn<E>>, k: nat)
    requires k <= |l|
    ensures Left(all, l, k) == all - Members(l[..k])
    ensures k == 0 ==> Left(all, l, k) == all && l[0..] == l
    ensures k == |l| ==> Left(all, l, k) == all - Members(l)
  {
    assert l[..|l|] == l;
  }

  lemma {:induction false} NoTwiceFits<E>(l: seq<Conn<E>>, all: set<Conn<E>>)
    requires NoRepeats(l) && forall c | c in l :: c in all
    ensures |l| <= |all|
  {
    if l != [] {
      var rest := l[..|l| - 1];
      assert forall c | c in rest :: c in all - {l[|l| - 1]};
      NoTwiceFits(rest, all - {l[|l| - 1]});
    }
  }

  // --- a keepalive pass ---

  /** What the world says of each connection, during one pass or one search: past
      its lifetime, idle for too long, due for a ping, and answering one. */
  datatype Health<!C> = Health(expired: C -> bool, idleLong: C -> bool, pingDue: C -> bool, alive: C -> bool)

  /** Whether a parked connection can be used. */
  predicate Works<C>(h: Health<C>, c: C) { !h.expired(c) && (h.pingDue(c) ==> h.alive(c)) }

  // Which of the parked connections is the first that can, |idle| when none is.
  function FirstThat<C>(h: Health<C>, idle: seq<C>): (k: nat)
    ensures k <= |idle| && (k < |idle| ==> Works(h, idle[k])) && forall i :: 0 <= i < k ==> !Works(h, idle[i])
  {
    if idle == [] || Works(h, idle[0]) then 0 else 1 + FirstThat(h, idle[1..])
  }

  /** One connection's fate, with others parked beside it. */
  predicate Stays<C>(h: Health<C>, c: C, others: nat, minIdle: nat, timeout: bool) {
    !h.expired(c) && !(timeout && others >= minIdle && h.idleLong(c)) && (h.pingDue(c) ==> h.alive(c))
  }

  /** What a pass leaves of the connections still to visit, after those kept. */
  function Pass<C>(h: Health<C>, todo: seq<C>, kept: seq<C>, minIdle: nat, timeout: bool): seq<C>
    decreases |todo|
  {
    if todo == [] then kept
    else
      Pass(h, todo[1..], if Stays(h, todo[0], |todo| - 1 + |kept|, minIdle, timeout) then kept + [todo[0]] else kept, minIdle, timeout)
  }

  /** l is what is left of m after taking elements out, in order. */
  ghost predicate Subsequence<C>(l: seq<C>, m: seq<C>) {
    if l == [] then true else if m == [] then false
    else (l[0] == m[0] && Subsequence(l[1..], m[1..])) || Subsequence(l, m[1..])
  }

  lemma {:induction false} SubsequenceAppend<C>(l: seq<C>, m: seq<C>, c: C)
    requires Subsequence(l, m)
    ensures Subsequence(l, m + [c]) && Subsequence(l + [c], m + [c])
    decreases |m|
  {
    if m == [] {
      assert l + [c] == m + [c] == [c] && l == [];
      assert Subsequence([c][1..], [c][1..]);
    } else {
      assert (m + [c])[1..] == m[1..] + [c];
      if l == [] {
        SubsequenceAppend(l, m[1..], c);
        assert l + [c] == [c];
      } else {
        if l[0] == m[0] && Subsequence(l[1..], m[1..]) {
          SubsequenceAppend(l[1..], m[1..], c);
          assert (l + [c])[1..] == l[1..] + [c];
        } else {
          SubsequenceAppend(l, m[1..], c);
        }
      }
    }
  }

  lemma {:induction false} PassKeepsOrder<C>(h: Health<C>, done: seq<C>, todo: seq<C>, kept: seq<C>, minIdle: nat, timeout: bool)
    requires Subsequence(kept, done)
    ensures Subsequence(Pass(h, todo, kept, minIdle, timeout), done + todo)
    decreases |todo|
  {
    if todo == [] {
      assert done + todo == done;
    } else {
      assert done + todo == (done + [todo[0]]) + todo[1..];
      SubsequenceAppend(kept, done, todo[0]);
      var kept' := if Stays(h, todo[0], |todo| - 1 + |kept|, minIdle, timeout) then kept + [todo[0]] else kept;
      PassKeepsOrder(h, done + [todo[0]], todo[1..], kept', minIdle, timeout);
    }
  }

  // What is kept of the first i.
  function KeptOf<C>(h: Health<C>, idle: seq<C>, i: nat, minIdle: nat, timeout: bool): (l: seq<C>)
    requires i <= |idle|
    ensures |l| <= i
  {
    if i == 0 then []
    else
      var kept := KeptOf(h, idle, i - 1, minIdle, timeout);
      if Stays(h, idle[i - 1], |idle| - i + |kept|, minIdle, timeout) then kept + [idle[i - 1]] else kept
  }

  /** How many are parked beside a connection when its turn comes: those still to
      be visited and those kept. */
  function Beside<C>(h: Health<C>, idle: seq<C>, i: nat, minIdle: nat, timeout: bool): nat
    requires i < |idle|
  {
    |idle| - 1 - i + |KeptOf(h, idle, i, minIdle, timeout)|
  }

  lemma {:induction false} PassFrom<C>(h: Health<C>, idle: seq<C>, i: nat, minIdle: nat, timeout: bool)
    requires i <= |idle|
    ensures Pass(h, idle[i..], KeptOf(h, idle, i, minIdle, timeout), minIdle, timeout) == KeptOf(h, idle, |idle|, minIdle, timeout)
    decreases |idle| - i
  {
    if i < |idle| {
      assert idle[i..][0] == idle[i] && idle[i..][1..] == idle[i + 1..];
      PassFrom(h, idle, i + 1, minIdle, timeout);
    }
  }

  lemma {:induction false} KeptAre<C>(h: Health<C>, idle: seq<C>, n: nat, i: nat, minIdle: nat, timeout: bool)
    requires NoRepeats(idle) && n <= |idle| && i < |idle|
    ensures idle[i] in KeptOf(h, idle, n, minIdle, timeout) <==>
            i < n && Stays(h, idle[i], Beside(h, idle, i, minIdle, timeout), minIdle, timeout)
  {
    if n > 0 {
      KeptAre(h, idle, n - 1, i, minIdle, timeout);
      assert i != n - 1 ==> idle[i] != idle[n - 1];
    }
  }

  /** A pass visits the connections parked at its start, each once, and keeps
      the survivors in order. */
  lemma PassInOrder<C>(h: Health<C>, idle: seq<C>, minIdle: nat, timeout: bool)
    ensures Subsequence(Pass(h, idle, [], minIdle, timeout), idle)
  {
    PassKeepsOrder(h, [], idle, [], minIdle, timeout);
    assert [] + idle == idle;
  }

  /** A connection survives it exactly when it is not past its lifetime, answers
      if it was due for a ping, and has not been idle for too long while min_idle
      others were parked beside it. */
  lemma PassSurvivors<C>(h: Health<C>, idle: seq<C>, i: nat, minIdle: nat, timeout: bool)
    requires NoRepeats(idle) && i < |idle|
    ensures idle[i] in Pass(h, idle, [], minIdle, timeout) <==>
            && !h.expired(idle[i]) && (h.pingDue(idle[i]) ==> h.alive(idle[i]))
            && !(timeout && h.idleLong(idle[i]) && Beside(h, idle, i, minIdle, timeout) >= minIdle)
  {
    assert idle[0..] == idle && KeptOf(h, idle, 0, minIdle, timeout) == [];
    hide Pass, Beside, NoRepeats, KeptOf;
    PassFrom(h, idle, 0, minIdle, timeout);
    KeptAre(h, idle, |idle|, i, minIdle, timeout);
  }

  // Connections lost to their age or to the network.
  function Dead<C>(h: Health<C>, l: seq<C>): nat {
    if l == [] then 0 else (if h.expired(l[0]) || (h.pingDue(l[0]) && !h.alive(l[0])) then 1 else 0) + Dead(h, l[1..])
  }

  /** idle_timeout alone never leaves fewer than min_idle parked: what is below
      it at the end was dead or expired, or missing at the start. */
  lemma {:induction false} PassKeepsMinIdle<C>(h: Health<C>, todo: seq<C>, kept: seq<C>, minIdle: nat, timeout: bool)
    ensures var n := |Pass(h, todo, kept, minIdle, timeout)|;
            n >= minIdle - Dead(h, todo) || n >= |todo| + |kept| - Dead(h, todo)
    decreases |todo|
  {
    if todo != [] {
      PassKeepsMinIdle(h, todo[1..], if Stays(h, todo[0], |todo| - 1 + |kept|, minIdle, timeout) then kept + [todo[0]] else kept,
                       minIdle, timeout);
    }
  }

  class ConnPool<E> {
    ghost const m: Server<E>
    const maxOpen: nat
    const maxIdle: nat
    const minIdle: nat
    const idleTimeout: bool
    var idle: seq<Conn<E>>
    var tokens: nat                 // len(openSem)
    var closed: bool
    ghost var live: set<Conn<E>>    // its connections that are open
    ghost var dialing: nat          // dials in progress

    ghost predicate Valid()
      reads this
    {
      && NoRepeats(idle) && (forall c | c in idle :: c in live) && (forall c | c in live :: c.owner == this)
      && tokens == |live| + dialing && tokens <= maxOpen
    }

    constructor (ghost m: Server<E>, maxOpen: nat, maxIdle: nat, minIdle: nat, idleTimeout: bool)
      ensures Valid() && idle == [] && live == {} && !closed && this.m == m
    {
      this.m, this.maxOpen, this.maxIdle, this.minIdle, this.idleTimeout := m, maxOpen, maxIdle, minIdle, idleTimeout;
      idle, tokens, closed, live, dialing := [], 0, false, {}, 0;
    }

    // The connection parked longest.
    method TakeFirst() returns (c: Conn<E>)
      requires Valid() && idle != []
      modifies `idle
      ensures Valid() && c == old(idle)[0] && idle == old(idle)[1..] && c in live && c !in idle
    {
      c := idle[0];
      idle := idle[1..];
    }

    method Discard(c: Conn<E>)
      requires Valid() && c in live && c !in idle
      modifies `tokens, `live
      ensures Valid() && live == old(live) - {c} && tokens == old(tokens) - 1
    {
      live := live - {c};
      tokens := tokens - 1;
    }

    /** park: there is always room, so nothing is ever closed here. */
    method Park(c: Conn<E>)
      requires Valid() && c in live && c !in idle
      modifies `idle, `tokens, `live
      ensures Valid() && idle == old(idle) + [c] && live == old(live) && tokens == old(tokens)
    {
      NoTwiceFits(idle, live - {c});
      if |idle| < maxOpen {
        idle := idle + [c];
      } else {
        assert false;
      }
    }

    /** ResetConn on a backend that has COM_RESET_CONNECTION. */
    method ResetConn(c: Conn<E>, answered: bool) returns (ok: bool)
      modifies c
      ensures ok == answered
      ensures c.View() == if ok then ResetLink(m, old(c.View())) else old(c.View())
      ensures ok ==> c.varSig == "" && c.boundDB == "" && !c.busy
    {
      if !answered { return false; }
      c.backend := ResetLink(m, c.View());
      c.varSig := "";
      c.boundDB := "";
      c.busy := false;
      return true;
    }

    /** Release: reset and parked, or closed: when the pool is closed, the
        connection too old, the reset not answered, or max_idle reached. */
    method Release(c: Conn<E>, expired: bool, answered: bool)
      requires Valid() && c in live && c !in idle
      modifies `idle, `tokens, `live, c
      ensures Valid()
      ensures if closed || expired || !answered || |old(idle)| >= maxIdle then live == old(live) - {c} && idle == old(idle)
              else live == old(live) && idle == old(idle) + [c] && c.View() == ResetLink(m, old(c.View()))
    {
      if closed || expired {
        Discard(c);
        return;
      }
      var ok := ResetConn(c, answered);
      if !ok {
        Discard(c);
        return;
      }
      if |idle| >= maxIdle {
        Discard(c);
        return;
      }
      Park(c);
    }

    /** ReleaseClean: parked as it is, or closed: when the pool is, or the
        connection is too old. max_idle does not matter here. */
    method ReleaseClean(c: Conn<E>, expired: bool)
      requires Valid() && c in live && c !in idle
      modifies `idle, `tokens, `live
      ensures Valid()
      ensures if closed || expired then live == old(live) - {c} && idle == old(idle)
              else live == old(live) && idle == old(idle) + [c]
    {
      if closed || expired {
        Discard(c);
        return;
      }
      Park(c);
    }

    // A connection for the caller, its token already taken, if the backend answers.
    method Dial(answered: bool) returns (c: Conn?<E>)
      requires Valid() && dialing > 0
      modifies `tokens, `live, `dialing
      ensures Valid() && dialing == old(dialing) - 1 && (c != null <==> answered)
      ensures c == null ==> live == old(live) && tokens == old(tokens) - 1
      ensures c != null ==> fresh(c) && live == old(live) + {c} && tokens == old(tokens) && c.owner == this
                            && c.View() == NewLink(m, 0, Parked)
    {
      dialing := dialing - 1;
      if !answered {
        tokens := tokens - 1;
        return null;
      }
      c := new Conn(m, this);
      live := live + {c};
    }

    method Revive(c: Conn<E>, h: Health<Conn<E>>) returns (ok: bool)
      requires Valid() && c in live && c !in idle
      modifies `tokens, `live
      ensures Valid() && ok == Works(h, c)
      ensures ok ==> live == old(live) && tokens == old(tokens)
      ensures !ok ==> live == old(live) - {c} && tokens == old(tokens) - 1
    {
      if h.expired(c) {
        Discard(c);
        return false;
      }
      if !h.pingDue(c) { return true; }
      if !h.alive(c) {
        Discard(c);
        return false;
      }
      return true;
    }

    /** The connection a caller gets: the first of the parked that works, else a new
        one, if the cap allows and the backend answers. */
    ghost function Offered(h: Health<Conn<E>>, answered: bool): Option<Link<E>>
      reads this, idle
    {
      var k := FirstThat(h, idle);
      if k < |idle| then Some(idle[k].View())
      else if tokens - |idle| < maxOpen && answered then Some(NewLink(m, 0, Parked)) else None
    }

    /** Acquire: the first of the parked connections that works, those before it
        closed; when none does, a new one, if the cap allows and the backend
        answers; else nothing. */
    method Acquire(h: Health<Conn<E>>, answered: bool) returns (c: Conn?<E>)
      requires Valid()
      modifies `idle, `tokens, `live, `dialing
      ensures Valid() && dialing == old(dialing)
      ensures var k := FirstThat(h, old(idle));
              if k < |old(idle)| then
                c == old(idle)[k] && idle == old(idle)[k + 1..] && live == old(live) - Members(old(idle)[..k])
              else if old(tokens) - |old(idle)| < maxOpen && answered then
                c != null && fresh(c) && idle == [] && live == old(live) - Members(old(idle)) + {c} && c.View() == NewLink(m, 0, Parked)
              else c == null && idle == [] && live == old(live) - Members(old(idle))
      ensures c != null ==> c in live && c !in idle && c.owner == this
      ensures old(Offered(h, answered)) == if c == null then None else Some(c.View())
    {
      var k: nat;
      c, k := FirstWorking(h);
      LeftIs(old(live), old(idle), k);
      if c != null { return; }
      if tokens < maxOpen {
        c := DialOne(answered);
        return;
      }
      return null;
    }

    // The first of the parked connections that works; those before it are closed.
    method FirstWorking(h: Health<Conn<E>>) returns (c: Conn?<E>, k: nat)
      requires Valid()
      modifies `idle, `tokens, `live
      ensures Valid() && k == FirstThat(h, old(idle)) && live == Left(old(live), old(idle), k) && tokens == old(tokens) - k
      ensures c == null ==> k == |old(idle)| && idle == []
      ensures c != null ==> k < |old(idle)| && c == old(idle)[k] && idle == old(idle)[k + 1..] && c in live && c !in idle
    {
      LeftIs(live, idle, 0);
      hide Members, Left, NoRepeats, Valid, Works;
      k := 0;
      while |idle| > 0
        invariant Valid() && k <= |old(idle)| && idle == old(idle)[k..] && live == Left(old(live), old(idle), k)
        invariant FirstThat(h, old(idle)) == k + FirstThat(h, idle) && tokens == old(tokens) - k
      {
        OneGone(old(live), old(idle), k);
        c := TakeFirst();
        var ok := Revive(c, h);
        if ok { return; }
        k := k + 1;
      }
      c := null;
    }

    // A new connection, as far as max_open allows.
    method DialOne(answered: bool) returns (c: Conn?<E>)
      requires Valid() && tokens < maxOpen
      modifies `tokens, `live, `dialing
      ensures Valid() && dialing == old(dialing) && (c != null <==> answered)
      ensures c == null ==> live == old(live) && tokens == old(tokens)
      ensures c != null ==> fresh(c) && live == old(live) + {c} && tokens == old(tokens) + 1 && c.owner == this
                            && c.View() == NewLink(m, 0, Parked)
    {
      tokens := tokens + 1;
      dialing := dialing + 1;
      c := Dial(answered);
    }

    /** prewarm: new connections parked behind the others, until min_idle of them
        or the cap is reached, or a dial (the first is number 0) is not answered. */
    method Prewarm(answered: nat -> bool) returns (count: nat)
      requires Valid()
      modifies `idle, `tokens, `live, `dialing
      ensures Valid() && |idle| == |old(idle)| + count && idle[..|old(idle)|] == old(idle)
      ensures forall i | |old(idle)| <= i < |idle| :: fresh(idle[i])
      ensures count <= minIdle && old(tokens) + count <= maxOpen && forall i: nat :: i < count ==> answered(i)
      ensures count == minIdle || old(tokens) + count == maxOpen || !answered(count)
    {
      count := 0;
      while count < minIdle
        invariant Valid() && count <= minIdle && |idle| == |old(idle)| + count && idle[..|old(idle)|] == old(idle)
        invariant forall i | |old(idle)| <= i < |idle| :: fresh(idle[i])
        invariant tokens == old(tokens) + count && forall i: nat :: i < count ==> answered(i)
        invariant forall c | c in old(live) :: c in live
      {
        if tokens >= maxOpen { return; }
        var c := DialOne(answered(count));
        if c == null { return; }
        Park(c);
        count := count + 1;
      }
    }

    /** Close: everything parked is closed, and its tokens are given back. */
    method Close()
      requires Valid()
      modifies `idle, `tokens, `live, `closed
      ensures Valid() && closed
      ensures !old(closed) ==> idle == [] && live == old(live) - Members(old(idle))
      ensures old(closed) ==> idle == old(idle) && live == old(live)
    {
      if closed { return; }
      closed := true;
      LeftIs(live, idle, 0);
      assert Valid();
      hide Members, Left, NoRepeats, Valid;
      ghost var k: nat := 0;
      while |idle| > 0
        invariant Valid() && closed && k <= |old(idle)| && idle == old(idle)[k..]
        invariant live == Left(old(live), old(idle), k)
      {
        OneGone(old(live), old(idle), k);
        var c := TakeFirst();
        Discard(c);
        k := k + 1;
      }
      LeftIs(old(live), old(idle), k);
    }

    /** One keepalive pass. */
    method Keepalive(h: Health<Conn<E>>)
      requires Valid()
      modifies `idle, `tokens, `live
      ensures Valid() && idle == Pass(h, old(idle), [], minIdle, idleTimeout)
      ensures tokens == old(tokens) - (|old(idle)| - |idle|)
      ensures forall c | c in old(live) :: c !in old(idle) ==> c in live
    {
      ghost var todo, kept := idle, [];
      var n := |idle|;
      while n > 0
        invariant Valid() && n == |todo| && idle == todo + kept
        invariant Pass(h, todo, kept, minIdle, idleTimeout) == Pass(h, old(idle), [], minIdle, idleTimeout)
        invariant tokens == old(tokens) - (|old(idle)| - |idle|)
        invariant forall c | c in idle :: c in old(idle)
        invariant forall c | c in old(live) :: c !in old(idle) ==> c in live
      {
        var c := TakeFirst();
        assert c == todo[0] && idle == todo[1..] + kept;
        n := n - 1;
        todo := todo[1..];
        if h.expired(c) {
          Discard(c);
          continue;
        }
        if idleTimeout && |idle| >= minIdle && h.idleLong(c) {
          Discard(c);
          continue;
        }
        if h.pingDue(c) {
          if !h.alive(c) {
            Discard(c);
            continue;
          }
        }
        Park(c);
        kept := kept + [c];
      }
    }
  }
}
