/** Promotion and repointing as sequences of statements, any of which may fail
    (internal/replication/failover.go, internal/replication/manager.go). */
module Replication {
  import opened Common

  /** What a replica is told to replicate from. */
  datatype Source = Source(host: string, port: string)

  /** A MySQL server: its two read-only settings, and the source it is configured
      to replicate from. */
  datatype Server = Server(readOnly: bool, superReadOnly: bool, follows: Option<Source>, running: bool)

  datatype Statement = SuperReadOnlyOn | SuperReadOnlyOff | ReadOnlyOff | StopReplica | ResetReplica
                     | ChangeSource(source: Source) | StartReplica

  /** What a statement does when it succeeds: super_read_only brings read_only
      with it, and read_only takes it away. */
  function Effect(s: Server, q: Statement): Server {
    match q
    case SuperReadOnlyOn => s.(readOnly := true, superReadOnly := true)
    case SuperReadOnlyOff => s.(superReadOnly := false)
    case ReadOnlyOff => s.(readOnly := false, superReadOnly := false)
    case StopReplica => s.(running := false)
    case ResetReplica => s.(follows := None, running := false)
    case ChangeSource(source) => s.(follows := Some(source))
    case StartReplica => s.(running := s.follows.Some?)
  }

  /** Whether MySQL takes it: the source of a running replica cannot be changed or
      forgotten, and a server without one cannot be started as a replica. */
  predicate Possible(s: Server, q: Statement) {
    match q
    case ResetReplica => !s.running
    case ChangeSource(_) => !s.running
    case StartReplica => s.follows.Some?
    case _ => true
  }

  predicate Writable(s: Server) { !s.readOnly && !s.superReadOnly }

  /** A server that follows another takes no writes of its own. */
  predicate FollowersReadOnly(servers: map<string, Server>) {
    forall a :: a in servers ==> servers[a].follows.Some? ==> servers[a].readOnly
  }

  // A statement that does not make a follower writable.
  predicate Harmless(s: Server, q: Statement) { Effect(s, q).follows.Some? ==> Effect(s, q).readOnly }

  // --- addresses ---

  function HostOf(address: string): (host: string)
    ensures ':' !in host
  {
    if address == "" || address[0] == ':' then "" else [address[0]] + HostOf(address[1..])
  }

  function PortOf(address: string): string {
    if address == "" then "3306" else if address[0] == ':' then address[1..] else PortOf(address[1..])
  }

  /** splitHostPort: the server at an address, as a replica is told of it. */
  function SourceOf(address: string): Source { Source(HostOf(address), PortOf(address)) }

  /** sameHost: the port does not count. */
  predicate SameHost(host: string, address: string) { host != "" && host == HostOf(address) }

  /** To the reconcile loop, a replica of the server at an address. */
  predicate SeemsToFollow(follows: Option<Source>, address: string) { follows.Some? && SameHost(follows.value.host, address) }

  // It replicates from another server on that host.
  predicate Misled(follows: Option<Source>, address: string) {
    SeemsToFollow(follows, address) && follows != Some(SourceOf(address))
  }

  lemma {:induction false} SplitAddress(host: string, port: string)
    requires ':' !in host
    ensures SourceOf(host + ":" + port) == Source(host, port)
  {
    if host == "" {
      assert host + ":" + port == ":" + port && (":" + port)[1..] == port;
    } else {
      assert (host + ":" + port)[1..] == host[1..] + ":" + port;
      SplitAddress(host[1..], port);
    }
  }

  /** What seems to follow the primary does, whichever of the known servers it
      follows, exactly when no other of them shares the primary's host. */
  lemma HostsTellApart(known: set<string>, primary: string)
    ensures (forall a :: a in known ==> !Misled(Some(SourceOf(a)), primary)) <==>
            (forall a :: a in known && SameHost(HostOf(a), primary) ==> SourceOf(a) == SourceOf(primary))
  {
    forall a | a in known
      ensures Misled(Some(SourceOf(a)), primary) <==> SameHost(HostOf(a), primary) && SourceOf(a) != SourceOf(primary)
    {
      assert SourceOf(a).host == HostOf(a);
    }
  }

  /** Two servers on one host are the same to the reconcile loop: a replica of
      either counts as following the primary. */
  lemma PortsAreConfused(host: string, primaryPort: string, otherPort: string)
    requires ':' !in host && host != ""
    ensures SeemsToFollow(Some(SourceOf(host + ":" + otherPort)), host + ":" + primaryPort)
    ensures Misled(Some(SourceOf(host + ":" + otherPort)), host + ":" + primaryPort) <==> primaryPort != otherPort
  {
    SplitAddress(host, primaryPort);
    SplitAddress(host, otherPort);
  }

  // --- the best candidate ---

  /** What a node last said: whether it applies what it receives, and how far
      behind it is, -1 when it could not tell. */
  datatype Status = Status(sqlRunning: bool, lag: int)

  predicate Candidate(a: string, up: set<string>, status: map<string, Status>) {
    a in up && a in status && status[a].sqlRunning
  }

  /** The replica to promote: the first of the candidates with the smallest lag reported. */
  predicate IsBest(a: string, replicas: seq<string>, up: set<string>, status: map<string, Status>) {
    exists i :: 0 <= i < |replicas| && replicas[i] == a && Candidate(a, up, status) && NoneBefore(replicas, i, up, status)
                && forall b :: b in replicas && Candidate(b, up, status) ==> status[a].lag <= status[b].lag
  }

  /** bestCandidate: the first of the candidates with the smallest lag reported. */
  method BestCandidate(replicas: seq<string>, up: set<string>, status: map<string, Status>) returns (best: Option<string>)
    ensures best.None? <==> forall a :: a in replicas ==> !Candidate(a, up, status)
    ensures best.Some? ==> best.value in replicas && Candidate(best.value, up, status)
    ensures best.Some? ==> forall a :: a in replicas && Candidate(a, up, status) ==> status[best.value].lag <= status[a].lag
    ensures best.Some? ==> exists i :: 0 <= i < |replicas| && replicas[i] == best.value && NoneBefore(replicas, i, up, status)
  {
    ghost var first := 0;
    best := None;
    var bestLag := -1;
    for i := 0 to |replicas|
      invariant best.None? <==> forall k :: 0 <= k < i ==> !Candidate(replicas[k], up, status)
      invariant best.Some? ==> best.value in replicas && Candidate(best.value, up, status) && bestLag == status[best.value].lag
      invariant best.Some? ==> forall k :: 0 <= k < i && Candidate(replicas[k], up, status) ==> bestLag <= status[replicas[k]].lag
      invariant best.Some? ==> 0 <= first < i && replicas[first] == best.value && NoneBefore(replicas, first, up, status)
    {
      var a := replicas[i];
      if a !in up || a !in status || !status[a].sqlRunning { continue; }
      if best.None? || status[a].lag < bestLag { best, bestLag, first := Some(a), status[a].lag, i; }
    }
  }

  // No candidate before the i-th replica has as little lag.
  predicate NoneBefore(replicas: seq<string>, i: nat, up: set<string>, status: map<string, Status>)
    requires i < |replicas| && replicas[i] in status
  {
    forall k :: 0 <= k < i && Candidate(replicas[k], up, status) ==> status[replicas[i]].lag < status[replicas[k]].lag
  }

  // The least behind of those that know how far behind they are.
  predicate LeastBehind(a: string, replicas: seq<string>, up: set<string>, status: map<string, Status>)
    requires a in status
  {
    status[a].lag >= 0
    && forall b :: b in replicas && Candidate(b, up, status) && status[b].lag >= 0 ==> status[a].lag <= status[b].lag
  }

  /** What is picked is the least far behind exactly when no candidate's lag is
      unknown: an unknown lag counts as the smallest. */
  lemma PickedIsLeastBehind(a: string, replicas: seq<string>, up: set<string>, status: map<string, Status>)
    requires a in replicas && Candidate(a, up, status)
    requires forall b :: b in replicas && Candidate(b, up, status) ==> status[a].lag <= status[b].lag
    ensures LeastBehind(a, replicas, up, status) <==>
            forall b :: b in replicas && Candidate(b, up, status) ==> status[b].lag >= 0
  {
  }

  // Read-only, and replicating from the primary.
  predicate Follows(s: Server, primary: string) {
    s.readOnly && s.follows == Some(SourceOf(primary)) && s.running
  }

  /** What a pass makes of a node that followed was before it: read-only, and
      following the primary, unless it follows another server on its host. An
      address without a host is no host to follow: nodes of such a primary are
      told again on every pass. */
  predicate Straightened(s: Server, was: Option<Source>, primary: string) {
    && s.readOnly && s.follows == (if Misled(was, primary) then was else Some(SourceOf(primary)))
    && (SeemsToFollow(s.follows, primary) <==> HostOf(primary) != "")
  }

  // --- the manager ---

  /** The servers and the recorded primary, between two statements. */
  datatype Moment = Moment(servers: map<string, Server>, recorded: string)

  predicate Sound(before: Moment, after: Moment) {
    && FollowersReadOnly(after.servers)
    && (after.recorded != before.recorded ==> after.recorded in after.servers && Writable(after.servers[after.recorded]))
  }

  /** Whenever gora stopped, followers were read-only, and no primary had been
      recorded that was not writable at that moment. */
  predicate AllSound(trace: seq<Moment>) {
    trace != [] && FollowersReadOnly(trace[0].servers) && forall i :: 0 < i < |trace| ==> Sound(trace[i - 1], trace[i])
  }

  // A primary and replicas, each a known server, all different.
  predicate AreNodes(known: set<string>, primary: string, replicas: seq<string>) {
    && primary in known && primary !in replicas && (forall a :: a in replicas ==> a in known)
    && forall i, j :: 0 <= i < j < |replicas| ==> replicas[i] != replicas[j]
  }

  // The nodes in turn, the primary first: all known, all different.
  predicate InTurn(nodes: seq<string>, known: set<string>, primary: string, replicas: seq<string>) {
    && nodes == [primary] + replicas && NoRepeats(nodes) && (forall k :: 0 <= k < |nodes| ==> nodes[k] in known)
    && forall k :: 0 < k < |nodes| ==> nodes[k] in replicas
  }

  lemma NodesDiffer(known: set<string>, primary: string, replicas: seq<string>)
    requires AreNodes(known, primary, replicas)
    ensures InTurn([primary] + replicas, known, primary, replicas)
  {
  }

  // Of the first k nodes, each replica that answered has been straightened; the others are as they were.
  ghost predicate Done(nodes: seq<string>, k: nat, was: map<string, Server>, now: map<string, Server>, refused: set<string>, primary: string)
    requires k <= |nodes| && forall i :: 0 <= i < |nodes| ==> nodes[i] in was && nodes[i] in now
  {
    && (forall i :: k <= i < |nodes| && i > 0 ==> now[nodes[i]] == was[nodes[i]])
    && forall i :: 0 < i < k ==> nodes[i] in refused || Straightened(now[nodes[i]], was[nodes[i]].follows, primary)
  }

  lemma AllDone(nodes: seq<string>, known: set<string>, primary: string, replicas: seq<string>,
                was: map<string, Server>, now: map<string, Server>, refused: set<string>)
    requires InTurn(nodes, known, primary, replicas) && was.Keys == known == now.Keys
    requires Done(nodes, |nodes|, was, now, refused, primary)
    ensures forall a :: a in replicas ==> a in now && (a in refused || Straightened(now[a], was[a].follows, primary))
  {
    hide Straightened;
    forall a | a in replicas ensures a in now && (a in refused || Straightened(now[a], was[a].follows, primary)) {
      var k :| 0 <= k < |replicas| && replicas[k] == a;
      assert nodes[k + 1] == a;
    }
  }

  class Manager {
    var servers: map<string, Server>
    var recorded: string
    var primary: string
    var replicas: seq<string>
    const answers: nat -> bool           // whether the world answers the n-th connection or statement
    var sent: nat                        // how many there have been
    var downSince: Option<int>           // when the primary was first found down, if it is
    ghost var trace: seq<Moment>
    ghost var refused: set<string>       // servers a needed statement failed on, or that did not answer
    ghost var balked: set<string>        // those that did so in the failover of the last pass

    ghost predicate Valid()
      reads this
    {
      && AllSound(trace) && trace[|trace| - 1] == Moment(servers, recorded) && FollowersReadOnly(servers)
      && AreNodes(servers.Keys, primary, replicas)
    }

    /** Everything sent from a moment on was answered. */
    ghost predicate AllAnswered(from: nat)
      reads this
    {
      forall n: nat :: from <= n < sent ==> answers(n)
    }

    constructor (servers: map<string, Server>, primary: string, replicas: seq<string>, recorded: string, answers: nat -> bool)
      requires FollowersReadOnly(servers) && AreNodes(servers.Keys, primary, replicas)
      ensures Valid() && this.servers == servers && this.primary == primary && this.replicas == replicas && downSince == None
    {
      this.servers, this.primary, this.replicas, this.recorded, this.answers := servers, primary, replicas, recorded, answers;
      trace, refused, balked, downSince, sent := [Moment(servers, recorded)], {}, {}, None, 0;
    }

    /** One statement on one server: it takes effect, or fails and changes nothing.
        It must not make a follower writable. */
    method Exec(a: string, q: Statement) returns (ok: bool)
      requires Valid() && a in servers
      requires Harmless(servers[a], q)
      modifies `servers, `trace, `refused, `sent
      ensures Valid() && old(trace) <= trace && servers.Keys == old(servers).Keys
      ensures ok ==> servers == old(servers)[a := Effect(old(servers)[a], q)] && refused == old(refused)
      ensures !ok ==> servers == old(servers) && refused == old(refused) + {a}
      ensures ok == (answers(old(sent)) && Possible(old(servers)[a], q)) && sent == old(sent) + 1
    {
      ok := answers(sent) && Possible(servers[a], q);
      sent := sent + 1;
      if ok {
        ghost var keys := servers.Keys;
        servers := servers[a := Effect(servers[a], q)];
        assert servers.Keys == keys;
        trace := trace + [Moment(servers, recorded)];
      } else {
        refused := refused + {a};
      }
    }

    // A statement whose failure does not matter.
    method Try(a: string, q: Statement)
      requires Valid() && a in servers && Harmless(servers[a], q)
      modifies `servers, `trace, `refused, `sent
      ensures Valid() && old(trace) <= trace && servers.Keys == old(servers).Keys && refused == old(refused)
      ensures sent == old(sent) + 1
      ensures servers == if answers(old(sent)) && Possible(old(servers)[a], q) then old(servers)[a := Effect(old(servers)[a], q)]
                         else old(servers)
    {
      ghost var was := refused;
      var ok := Exec(a, q);
      refused := was;
    }

    method Connect(a: string) returns (ok: bool)
      modifies `refused, `sent
      ensures ok ==> refused == old(refused)
      ensures !ok ==> refused == old(refused) + {a}
      ensures ok == answers(old(sent)) && sent == old(sent) + 1
    {
      ok := answers(sent);
      sent := sent + 1;
      if !ok { refused := refused + {a}; }
    }

    /** pointAt: read-only first, then replicating from the primary. */
    method PointAt(a: string, source: string) returns (ok: bool)
      requires Valid() && a in servers
      modifies `servers, `trace, `refused, `sent
      ensures Valid() && old(trace) <= trace && servers.Keys == old(servers).Keys && old(refused) <= refused <= old(refused) + {a}
      ensures forall b :: b in servers && b != a ==> servers[b] == old(servers)[b]
      ensures old(servers)[a].readOnly ==> servers[a].readOnly
      ensures ok ==> servers[a].readOnly && servers[a].follows == Some(SourceOf(source)) && servers[a].running
      ensures !ok ==> a in refused
      ensures sent >= old(sent) && (AllAnswered(old(sent)) ==> ok && refused == old(refused))
    {
      assert servers[a].follows.Some? ==> servers[a].readOnly;
      hide AllSound, FollowersReadOnly, AreNodes;
      ok := Connect(a);
      if !ok { return; }
      ok := Exec(a, SuperReadOnlyOn);
      if !ok { return; }
      ok := StartReplication(a, source);
    }

    method StartReplication(a: string, source: string) returns (ok: bool)
      requires Valid() && a in servers && servers[a].readOnly
      modifies `servers, `trace, `refused, `sent
      ensures Valid() && old(trace) <= trace && servers.Keys == old(servers).Keys && old(refused) <= refused <= old(refused) + {a}
      ensures forall b :: b in servers && b != a ==> servers[b] == old(servers)[b]
      ensures servers[a].readOnly
      ensures ok ==> servers[a].follows == Some(SourceOf(source)) && servers[a].running
      ensures !ok ==> a in refused
      ensures sent >= old(sent) && (AllAnswered(old(sent)) ==> ok && refused == old(refused))
    {
      hide AllSound, FollowersReadOnly, AreNodes;
      Try(a, StopReplica);
      ok := Exec(a, ChangeSource(SourceOf(source)));
      if !ok { return; }
      ok := Exec(a, StartReplica);
    }

    // A server made a replica of nothing.
    method Detach(a: string) returns (ok: bool)
      requires Valid() && a in servers
      modifies `servers, `trace, `refused, `sent
      ensures Valid() && old(trace) <= trace && servers.Keys == old(servers).Keys && old(refused) <= refused <= old(refused) + {a}
      ensures forall b :: b in servers && b != a ==> servers[b] == old(servers)[b]
      ensures ok ==> servers[a].follows == None
      ensures !ok ==> a in refused
      ensures sent >= old(sent) && (AllAnswered(old(sent)) ==> ok && refused == old(refused))
    {
      assert servers[a].follows.Some? ==> servers[a].readOnly;
      hide AllSound, FollowersReadOnly, AreNodes;
      Try(a, StopReplica);
      ok := Exec(a, ResetReplica);
    }

    // The statements that make a server take writes.
    method MakeWritable(a: string) returns (ok: bool)
      requires Valid() && a in servers
      modifies `servers, `trace, `refused, `sent
      ensures Valid() && old(trace) <= trace && servers.Keys == old(servers).Keys && old(refused) <= refused <= old(refused) + {a}
      ensures forall b :: b in servers && b != a ==> servers[b] == old(servers)[b]
      ensures ok ==> Writable(servers[a]) && servers[a].follows == None
      ensures !ok ==> a in refused
      ensures sent >= old(sent) && (AllAnswered(old(sent)) ==> ok && refused == old(refused))
    {
      hide AllSound, FollowersReadOnly, AreNodes;
      ok := Connect(a);
      if !ok { return; }
      ok := Detach(a);
      if !ok { return; }
      ok := Exec(a, SuperReadOnlyOff);
      if !ok { return; }
      ok := Exec(a, ReadOnlyOff);
    }

    // The topology's promotion, and the record of it.
    method TakeOver(a: string)
      requires Valid() && a in replicas && Writable(servers[a])
      modifies `primary, `replicas, `recorded, `trace
      ensures Valid() && old(trace) <= trace && primary == a && recorded == a
      ensures forall b :: b in replicas <==> (b in old(replicas) && b != a) || b == old(primary)
    {
      var idx :| 0 <= idx < |replicas| && replicas[idx] == a;
      ghost var was := replicas;
      replicas := replicas[idx := primary];
      assert replicas[idx] == primary && forall k :: 0 <= k < |was| && k != idx ==> replicas[k] == was[k];
      primary := a;
      recorded := a;
      trace := trace + [Moment(servers, recorded)];
    }

    /** Promote: the new primary is stopped following, made writable, and only
        then recorded; the others are pointed at it as far as they answer. */
    method Promote(a: string) returns (ok: bool)
      requires Valid()
      modifies `servers, `recorded, `primary, `replicas, `trace, `refused, `sent
      ensures Valid() && old(trace) <= trace && old(refused) <= refused && servers.Keys == old(servers).Keys
      ensures ok ==> primary == a && recorded == a && Writable(servers[a]) && servers[a].follows == None
      ensures ok ==> forall b :: b in replicas ==> b in refused || Follows(servers[b], primary)
      ensures !ok ==> primary == old(primary) && replicas == old(replicas) && recorded == old(recorded)
      ensures !ok ==> (a in replicas ==> a in refused)
                      && forall b :: b in servers && b != a ==> servers[b] == old(servers)[b]
      ensures sent >= old(sent) && (AllAnswered(old(sent)) ==> ok == (a in old(replicas)) && refused == old(refused))
    {
      hide AllSound;
      if a !in replicas { return false; }
      ok := MakeWritable(a);
      if !ok { return; }
      TakeOver(a);
      PointOthers();
    }

    // Everything else follows the new primary.
    method PointOthers()
      requires Valid() && Writable(servers[primary]) && servers[primary].follows == None
      modifies `servers, `trace, `refused, `sent
      ensures Valid() && old(trace) <= trace && old(refused) <= refused && servers.Keys == old(servers).Keys
      ensures servers[primary] == old(servers)[primary]
      ensures forall b :: b in replicas ==> b in refused || Follows(servers[b], primary)
      ensures sent >= old(sent) && (AllAnswered(old(sent)) ==> refused == old(refused))
    {
      hide AllSound;
      for i := 0 to |replicas|
        invariant Valid() && old(trace) <= trace && old(refused) <= refused && servers.Keys == old(servers).Keys
        invariant servers[primary] == old(servers)[primary]
        invariant forall k :: 0 <= k < i ==> replicas[k] in refused || Follows(servers[replicas[k]], primary)
        invariant sent >= old(sent) && (AllAnswered(old(sent)) ==> refused == old(refused))
      {
        var done := PointAt(replicas[i], primary);
      }
    }

    // Reads a node's status, when it answers.
    method ReadStatus(a: string) returns (checked: bool, sourceHost: string)
      requires Valid() && a in servers
      modifies `refused, `sent
      ensures checked ==> refused == old(refused)
      ensures checked ==> sourceHost == if servers[a].follows == None then "" else servers[a].follows.value.host
      ensures !checked ==> refused == old(refused) + {a}
      ensures checked == answers(old(sent)) && sent == old(sent) + 1
    {
      sourceHost := if servers[a].follows == None then "" else servers[a].follows.value.host;
      checked := Connect(a);
    }

    // One node of the pass.
    method Straighten(a: string)
      requires Valid() && a in replicas
      modifies `servers, `trace, `refused, `sent
      ensures Valid() && old(trace) <= trace && servers.Keys == old(servers).Keys && old(refused) <= refused <= old(refused) + {a}
      ensures forall b :: b in servers && b != a ==> servers[b] == old(servers)[b]
      ensures a in refused || Straightened(servers[a], old(servers)[a].follows, primary)
      ensures sent >= old(sent) && (AllAnswered(old(sent)) ==> refused == old(refused))
    {
      hide AllSound;
      assert servers[a].follows.Some? ==> servers[a].readOnly;
      var checked, sourceHost := ReadStatus(a);
      if !checked { return; }
      if !SameHost(sourceHost, primary) { var done := PointAt(a, primary); }
    }

    /** Reconcile: after a pass every node that answered, and took the statements
        it was sent, is read-only and follows the primary, unless it followed
        another server on the primary's host before. Only an automatic failover
        changes the primary, and then they all follow the new one: the best
        candidate, unless a statement of its promotion failed on it. */
    method Reconcile(up: set<string>, status: map<string, Status>, now: int, delay: int, automatic: bool)
      requires Valid()
      modifies this
      ensures Valid() && old(trace) <= trace && servers.Keys == old(servers).Keys
      ensures primary == old(primary) ==> forall a :: a in replicas ==> a in refused || Straightened(servers[a], old(servers)[a].follows, primary)
      ensures primary != old(primary) ==> forall a :: a in replicas ==> a in refused || Follows(servers[a], primary)
      ensures primary != old(primary) ==> automatic && DownFor(old(primary), old(downSince), up, now, delay)
                                          && primary in up && Writable(servers[primary])
      ensures automatic && DownFor(old(primary), old(downSince), up, now, delay) ==>
                forall a :: IsBest(a, old(replicas), up, status) ==> primary == a || a in balked
      ensures downSince == DownSince(old(primary), old(downSince), up, now)
      ensures sent >= old(sent) && (AllAnswered(old(sent)) ==> refused == {} && balked == {})
    {
      hide AllSound, Straightened, FollowersReadOnly, AreNodes, SinceAfter;
      refused := {};
      ghost var was := servers;
      StraightenAll();
      WatchPrimary(up, status, now, delay, automatic, was);
    }

    // The nodes in turn: each one's status is read, and what follows the wrong
    // server is told to follow the primary.
    method StraightenAll()
      requires Valid()
      modifies `servers, `trace, `refused, `sent
      ensures Valid() && old(trace) <= trace && servers.Keys == old(servers).Keys
      ensures forall a :: a in replicas ==> a in refused || Straightened(servers[a], old(servers)[a].follows, primary)
      ensures sent >= old(sent) && (AllAnswered(old(sent)) ==> refused == old(refused))
    {
      hide AllSound, Straightened, FollowersReadOnly;
      var nodes := [primary] + replicas;
      ghost var was := servers;
      NodesDiffer(servers.Keys, primary, replicas);
      hide AreNodes;
      for i := 0 to |nodes|
        invariant Valid() && old(trace) <= trace && servers.Keys == was.Keys
        invariant Done(nodes, i, was, servers, refused, primary)
        invariant sent >= old(sent) && (AllAnswered(old(sent)) ==> refused == old(refused))
      {
        if nodes[i] == primary {
          var checked, sourceHost := ReadStatus(primary);
          continue;
        }
        Straighten(nodes[i]);
      }
      AllDone(nodes, servers.Keys, primary, replicas, was, servers, refused);
    }

    // A promotion, with the servers it failed on told apart.
    method FailOver(a: string)
      requires Valid() && a in replicas
      modifies `servers, `recorded, `primary, `replicas, `trace, `refused, `balked, `sent
      ensures Valid() && old(trace) <= trace && servers.Keys == old(servers).Keys && old(refused) <= refused
      ensures primary == a || a in balked
      ensures sent >= old(sent) && (AllAnswered(old(sent)) ==> refused == old(refused) && balked == {})
      ensures primary == old(primary) || primary == a
      ensures primary != old(primary) ==> Writable(servers[a]) && forall b :: b in replicas ==> b in refused || Follows(servers[b], primary)
      ensures primary == old(primary) ==> replicas == old(replicas) && a in refused
                                          && forall b :: b in servers && b != a ==> servers[b] == old(servers)[b]
    {
      assert a != primary;
      hide AllSound, FollowersReadOnly, AreNodes;
      ghost var before := refused;
      refused := {};
      var ok := Promote(a);
      refused, balked := before + refused, refused;
    }

    /** watchPrimary: a failover needs the primary down for the delay, counted
        from the first pass that found it down, and to be automatic; then the
        best candidate is promoted, if there is one and its promotion succeeds. */
    method WatchPrimary(up: set<string>, status: map<string, Status>, now: int, delay: int, automatic: bool,
                        ghost was: map<string, Server>)
      requires Valid() && servers.Keys == was.Keys
      requires forall a :: a in replicas ==> a in refused || Straightened(servers[a], was[a].follows, primary)
      modifies this
      ensures Valid() && old(trace) <= trace && servers.Keys == old(servers).Keys
      ensures primary == old(primary) ==> forall a :: a in replicas ==> a in refused || Straightened(servers[a], was[a].follows, primary)
      ensures primary != old(primary) ==> forall a :: a in replicas ==> a in refused || Follows(servers[a], primary)
      ensures primary != old(primary) ==> automatic && DownFor(old(primary), old(downSince), up, now, delay)
                                          && primary in up && Writable(servers[primary])
      ensures automatic && DownFor(old(primary), old(downSince), up, now, delay) ==>
                forall a :: IsBest(a, old(replicas), up, status) ==> primary == a || a in balked
      ensures downSince == DownSince(old(primary), old(downSince), up, now)
      ensures sent >= old(sent) && (AllAnswered(old(sent)) ==> refused == old(refused) && balked == {})
    {
      hide AllSound;
      balked := {};
      if primary in up {
        downSince := None;
        return;
      }
      if downSince == None { downSince := Some(now); }
      if now - downSince.value < delay { return; }
      if !automatic { return; }
      var candidate := BestCandidate(replicas, up, status);
      BestIsOne(replicas, up, status, candidate);
      if candidate == None { return; }
      FailOver(candidate.value);
    }
  }

  // There is one best candidate at most, and bestCandidate finds it.
  lemma BestIsOne(replicas: seq<string>, up: set<string>, status: map<string, Status>, best: Option<string>)
    requires best.None? <==> forall a :: a in replicas ==> !Candidate(a, up, status)
    requires best.Some? ==> IsBest(best.value, replicas, up, status)
    ensures forall a :: IsBest(a, replicas, up, status) ==> best == Some(a)
  {
  }

  // Since when the primary has been found down, after a pass at a time.
  function DownSince(primary: string, since: Option<int>, up: set<string>, now: int): Option<int> {
    if primary in up then None else if since == None then Some(now) else since
  }

  /** What one pass finds: the nodes that are up, and the time. */
  datatype Found = Found(up: set<string>, now: int)

  function SinceAfter(primary: string, passes: seq<Found>): Option<int>
    decreases |passes|
  {
    if passes == [] then None
    else
      var last := passes[|passes| - 1];
      DownSince(primary, SinceAfter(primary, passes[..|passes| - 1]), last.up, last.now)
  }

  /** The primary was down in every pass from the i-th on, and not in the one before. */
  predicate DownFrom(primary: string, passes: seq<Found>, i: nat) {
    && i < |passes| && (i > 0 ==> primary in passes[i - 1].up)
    && forall k :: i <= k < |passes| ==> primary !in passes[k].up
  }

  /** Then it has been down since the i-th. */
  lemma {:induction false} DownSinceFirst(primary: string, passes: seq<Found>, i: nat)
    requires DownFrom(primary, passes, i)
    ensures SinceAfter(primary, passes) == Some(passes[i].now)
    decreases |passes|
  {
    if i < |passes| - 1 { DownSinceFirst(primary, passes[..|passes| - 1], i); }
  }

  /** A failover is due exactly when the delay has passed between the first of the
      passes that found the primary down, with none that found it up since, and
      now. */
  lemma DownForWhen(primary: string, passes: seq<Found>, up: set<string>, now: int, delay: int)
    ensures DownFor(primary, SinceAfter(primary, passes), up, now, delay) <==>
            var all := passes + [Found(up, now)];
            exists i: nat :: DownFrom(primary, all, i) && now - all[i].now >= delay
  {
    var all := passes + [Found(up, now)];
    assert all[..|passes|] == passes && all[|passes|] == Found(up, now);
    assert SinceAfter(primary, all) == DownSince(primary, SinceAfter(primary, passes), up, now);
    if primary !in up {
      var i := FirstDown(primary, all);
      DownSinceFirst(primary, all, i);
      forall k: nat | DownFrom(primary, all, k) ensures all[k].now == all[i].now { DownSinceFirst(primary, all, k); }
    }
    hide SinceAfter;
  }

  lemma {:induction false} FirstDown(primary: string, passes: seq<Found>) returns (i: nat)
    requires passes != [] && primary !in passes[|passes| - 1].up
    ensures DownFrom(primary, passes, i)
    decreases |passes|
  {
    var init := passes[..|passes| - 1];
    if init == [] || primary in init[|init| - 1].up {
      i := |init|;
    } else {
      i := FirstDown(primary, init);
      assert forall k :: i <= k < |init| ==> init[k] == passes[k];
    }
  }

  predicate DownFor(primary: string, since: Option<int>, up: set<string>, now: int, delay: int) {
    var s := DownSince(primary, since, up, now);
    s.Some? && now - s.value >= delay
  }
}
