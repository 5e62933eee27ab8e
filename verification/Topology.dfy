/** The nodes of a running gora: roles, promotion, and where reads go
    (internal/topology/topology.go, internal/topology/membership.go). */
module Topology {
  import opened Common
  import opened Membership

  const WORD := 0x1_0000_0000_0000_0000   // the counter of reads is a uint64

  datatype Role = Primary | Replica

  class Node {
    const address: string
    var role: Role
    var up: bool
    var lag: int                          // seconds; negative when unknown

    constructor (address: string, role: Role)
      ensures this.address == address && this.role == role && up && lag == -1
    {
      this.address, this.role, up, lag := address, role, true, -1;
    }
  }

  ghost function Addresses(l: seq<Node>): (r: seq<string>)
    ensures |r| == |l| && forall i :: 0 <= i < |l| ==> r[i] == l[i].address
  {
    seq(|l|, i requires 0 <= i < |l| => l[i].address)
  }

  // --- addresses, one node taken out or swapped ---

  lemma {:induction false} DropAt(l: seq<string>, i: nat)
    requires i < |l| && NoRepeats(l)
    ensures Drop(l, l[i]) == l[..i] + l[i + 1..]
  {
    TailDiffers(l);
    if i == 0 {
      DropNone(l[1..], l[0]);
    } else {
      assert l[0] != l[i] == l[1..][i - 1];
      hide NoRepeats;
      DropAt(l[1..], i - 1);
      assert l[..i] + l[i + 1..] == [l[0]] + (l[1..][..i - 1] + l[1..][i..]);
    }
  }

  lemma {:induction false} DropNone(l: seq<string>, a: string)
    requires a !in l
    ensures Drop(l, a) == l
  {
    if l != [] { DropNone(l[1..], a); }
  }

  lemma {:induction false} SwappedAt(l: seq<string>, i: nat, b: string)
    requires i < |l| && NoRepeats(l)
    ensures Swapped(l, l[i], b) == l[i := b]
  {
    TailDiffers(l);
    if i > 0 {
      assert l[0] != l[i] == l[1..][i - 1];
      hide NoRepeats;
      SwappedAt(l[1..], i - 1, b);
      assert l[i := b] == [l[0]] + l[1..][i - 1 := b];
    }
  }

  lemma {:induction false} DropConcat(x: seq<string>, y: seq<string>, a: string)
    ensures Drop(x + y, a) == Drop(x, a) + Drop(y, a)
  {
    if x == [] {
      assert x + y == y;
    } else {
      assert (x + y)[1..] == x[1..] + y;
      DropConcat(x[1..], y, a);
    }
  }

  lemma {:induction false} KeptConcat(x: seq<string>, y: seq<string>, wanted: seq<string>)
    ensures Kept(x + y, wanted) == Kept(x, wanted) + Kept(y, wanted)
  {
    if x == [] {
      assert x + y == y;
    } else {
      assert (x + y)[1..] == x[1..] + y;
      KeptConcat(x[1..], y, wanted);
    }
  }

  // One step of removing what is not wanted.
  lemma KeepStep(l: seq<string>, i: nat, wanted: seq<string>)
    requires i < |l| && NoRepeats(l)
    ensures var k, k' := Kept(l[..i], wanted), Kept(l[..i + 1], wanted);
            && l[i] in k + l[i..]
            && k' + l[i + 1..] == if l[i] in wanted then k + l[i..] else Drop(k + l[i..], l[i])
  {
    var k, a, rest := Kept(l[..i], wanted), l[i], l[i + 1..];
    assert l[..i + 1] == l[..i] + [a] && l[i..] == [a] + rest;
    KeptConcat(l[..i], [a], wanted);
    KeptOne(a, wanted);
    if a in wanted {
      assert (k + [a]) + rest == k + ([a] + rest);
    } else {
      KeptFacts(l[..i], wanted);
      DropMiddle(k, a, rest);
      assert k + [] == k;
    }
  }

  lemma KeptOne(a: string, wanted: seq<string>)
    ensures Kept([a], wanted) == if a in wanted then [a] else []
  {
    assert [a][1..] == [];
  }

  lemma DropMiddle(x: seq<string>, a: string, y: seq<string>)
    requires a !in x && a !in y
    ensures Drop(x + ([a] + y), a) == x + y
  {
    DropConcat(x, [a] + y, a);
    DropNone(x, a);
    DropNone(y, a);
    assert ([a] + y)[1..] == y;
  }

  class Topology {
    var primary: Node
    var replicas: seq<Node>
    var next: nat
    var maxLag: int

    ghost function View(): Cluster
      reads this
    {
      Cluster(primary.address, Addresses(replicas))
    }

    ghost predicate Valid()
      reads this, primary, replicas
    {
      && Proper(View()) && next < WORD
      && primary.role == Role.Primary && forall n | n in replicas :: n.role == Role.Replica
    }

    /** New: the configured primary and the members, then the recorded primary
        restored if it is one of them. */
    constructor (address: string, members: seq<string>, recorded: string, maxLag: int)
      requires address !in members && NoRepeats(members)
      ensures Valid() && fresh(primary) && fresh(replicas)
      ensures View() == var c := Cluster(address, members);
                        if recorded in members && recorded != "" then Promoted(c, recorded) else c
    {
      primary := new Node(address, Role.Primary);
      replicas, next, this.maxLag := [], 0, maxLag;
      new;
      for i := 0 to |members|
        invariant primary.address == address && primary.role == Role.Primary && fresh(primary) && fresh(replicas) && next == 0
        invariant Addresses(replicas) == members[..i] && forall n | n in replicas :: n.role == Role.Replica
      {
        var n := new Node(members[i], Role.Replica);
        replicas := replicas + [n];
      }
      assert members[..|members|] == members;
      if recorded != "" && recorded != primary.address {
        var n := Find(recorded);
        if n != null {
          ghost var was, p := replicas, primary;
          var done := Promote(n);
          assert forall i :: 0 <= i < |replicas| ==> replicas[i] == p || replicas[i] in was;
        }
      }
    }

    /** Node: the node at an address. */
    method Find(address: string) returns (n: Node?)
      requires Valid()
      ensures n != null <==> Has(View(), address)
      ensures n != null ==> n.address == address && (n == primary || n in replicas)
    {
      var nodes := [primary] + replicas;
      for i := 0 to |nodes|
        invariant forall k :: 0 <= k < i ==> nodes[k].address != address
      {
        if nodes[i].address == address { return nodes[i]; }
      }
      assert nodes[0] == primary;
      assert forall k :: 0 <= k < |replicas| ==> nodes[k + 1] == replicas[k];
      return null;
    }

    method IndexOf(address: string) returns (idx: int)
      ensures idx < 0 <==> address !in Addresses(replicas)
      ensures idx >= 0 ==> idx < |replicas| && replicas[idx].address == address
    {
      for i := 0 to |replicas|
        invariant forall k :: 0 <= k < i ==> replicas[k].address != address
      {
        if replicas[i].address == address {
          assert Addresses(replicas)[i] == address;
          return i;
        }
      }
      return -1;
    }

    /** AddReplica: refused for an invalid address and for a node already there. */
    method AddReplica(address: string, valid: string -> bool) returns (ok: bool)
      requires Valid()
      modifies `replicas
      ensures Valid() && ok == (valid(address) && !Has(old(View()), address))
      ensures View() == Grown(old(View()), [address], valid)
      ensures forall n | n in replicas :: n in old(replicas) || (fresh(n) && n.up && n.lag == -1)
    {
      assert [address][1..] == [];
      if !valid(address) { return false; }
      if primary.address == address { return false; }
      var idx := IndexOf(address);
      if idx >= 0 { return false; }
      var node := new Node(address, Role.Replica);
      replicas := replicas + [node];
      return true;
    }

    /** RemoveNode: refused for the primary and for a node that is not there. */
    method RemoveNode(address: string) returns (ok: bool)
      requires Valid()
      modifies `replicas
      ensures Valid() && ok == (address in old(View()).replicas)
      ensures View() == old(View()).(replicas := Drop(old(View()).replicas, address))
      ensures forall n | n in replicas :: n in old(replicas)
    {
      ghost var l := Addresses(replicas);
      if primary.address == address {
        DropNone(l, address);
        return false;
      }
      var idx := IndexOf(address);
      if idx < 0 {
        DropNone(l, address);
        return false;
      }
      DropAt(l, idx);
      DropMembers(l, address);
      replicas := replicas[..idx] + replicas[idx + 1..];
      assert Addresses(replicas) == l[..idx] + l[idx + 1..];
      return true;
    }

    /** Promote: a replica and the primary change places and roles; the lag of
        the one is unknown from now on, the other's is none. */
    method Promote(n: Node) returns (ok: bool)
      requires Valid()
      modifies `primary, `replicas, primary, n
      ensures ok == (n in old(replicas))
      ensures !ok ==> primary == old(primary) && replicas == old(replicas) && View() == old(View()) && primary.role == old(primary.role)
                      && n.role == old(n.role)
      ensures ok ==> Valid() && primary == n && n.lag == 0 && old(primary).lag == -1 && old(primary) in replicas
      ensures ok ==> n.address in old(View()).replicas && View() == Promoted(old(View()), n.address)
      ensures ok ==> (forall x | x in replicas :: x == old(primary) || x in old(replicas))
                     && forall x | x in old(replicas) :: x == primary || x in replicas
      ensures next == old(next)
    {
      hide Swapped;
      if n == primary { return false; }
      if n !in replicas { return false; }
      var idx :| 0 <= idx < |replicas| && replicas[idx] == n;
      ghost var l, was := Addresses(replicas), replicas;
      SwappedAt(l, idx, primary.address);
      SwappedFacts(l, n.address, primary.address);
      var demoted := primary;
      replicas := replicas[idx := demoted];
      assert replicas[idx] == demoted && forall k :: 0 <= k < |was| && k != idx ==> replicas[k] == was[k];
      demoted.role := Role.Replica;
      demoted.lag := -1;
      primary := n;
      n.role := Role.Primary;
      n.lag := 0;
      assert Addresses(replicas) == l[idx := demoted.address];
      return true;
    }

    // What the state lists and the topology lacks comes in.
    method Grow(wanted: seq<string>, valid: string -> bool)
      requires Valid()
      modifies `replicas
      ensures Valid() && View() == Grown(old(View()), wanted, valid)
      ensures forall n | n in replicas :: n in old(replicas) || fresh(n)
    {
      for i := 0 to |wanted|
        invariant Valid() && Grown(View(), wanted[i..], valid) == Grown(old(View()), wanted, valid)
        invariant forall n | n in replicas :: n in old(replicas) || fresh(n)
      {
        var n := Find(wanted[i]);
        assert wanted[i..][0] == wanted[i] && wanted[i..][1..] == wanted[i + 1..];
        assert [wanted[i]][1..] == [];
        if n != null { continue; }
        var added := AddReplica(wanted[i], valid);
      }
    }

    method KeepOrRemove(address: string, wanted: seq<string>, ghost l: seq<string>, ghost i: nat)
      requires Valid() && i < |l| && address == l[i] && NoRepeats(l)
      requires View().replicas == Kept(l[..i], wanted) + l[i..]
      modifies `replicas
      ensures Valid() && View() == old(View()).(replicas := Kept(l[..i + 1], wanted) + l[i + 1..])
      ensures forall n | n in replicas :: n in old(replicas)
    {
      hide Kept, Drop;
      KeepStep(l, i, wanted);
      if address !in wanted { var gone := RemoveNode(address); }
    }

    // What it no longer lists goes; the primary never does.
    method Shrink(wanted: seq<string>)
      requires Valid()
      modifies `replicas
      ensures Valid() && View() == old(View()).(replicas := Kept(old(View()).replicas, wanted))
      ensures forall n | n in replicas :: n in old(replicas)
    {
      assert Kept([], wanted) == [];
      var nodes := replicas;
      ghost var l := Addresses(nodes);
      assert NoRepeats(l) && View().replicas == l;
      hide Kept, Drop, Addresses, NoRepeats, Proper, Valid, View;
      assert l[..0] == [] && [] + l[0..] == l;
      for i := 0 to |nodes|
        invariant Valid() && View() == old(View()).(replicas := Kept(l[..i], wanted) + l[i..]) && primary == old(primary)
        invariant forall n | n in replicas :: n in old(replicas)
      {
        KeepOrRemove(nodes[i].address, wanted, l, i);
      }
      assert l[..|l|] == l && Kept(l, wanted) + l[|l|..] == Kept(l, wanted);
    }

    /** syncState, with the members and the primary the state file gives. */
    method SyncState(wanted: seq<string>, recorded: string, valid: string -> bool)
      requires Valid()
      modifies this, primary, replicas
      ensures Valid() && View() == Synced(old(View()), wanted, recorded, valid)
    {
      Grow(wanted, valid);
      Shrink(wanted);
      if recorded != "" && recorded != primary.address {
        var n := Find(recorded);
        if n == null { return; }
        var adopted := Promote(n);
      }
    }

    predicate Eligible(n: Node)
      reads this`maxLag, n
    {
      n.up && (maxLag <= 0 || 0 <= n.lag <= maxLag)
    }

    ghost function EligibleAmong(l: seq<Node>): (up: seq<bool>)
      reads this`maxLag, l
      ensures |up| == |l| && forall i :: 0 <= i < |up| ==> up[i] == Eligible(l[i])
    {
      if l == [] then [] else [Eligible(l[0])] + EligibleAmong(l[1..])
    }

    ghost function EligibleReplicas(): (up: seq<bool>)
      reads this`replicas, this`maxLag, replicas
      ensures |up| == |replicas| && forall i :: 0 <= i < |up| ==> up[i] == Eligible(replicas[i])
    {
      EligibleAmong(replicas)
    }

    // Where a read goes at a turn of the counter.
    ghost function Reader(turn: nat): Node
      reads this`primary, this`replicas, this`maxLag, replicas
    {
      match Picked(EligibleReplicas(), turn)
      case None => primary
      case Some(i) => replicas[i]
    }

    // The replica in turn, or the next that is eligible.
    method FirstEligible(start: nat) returns (n: Node?)
      requires replicas != [] && start < |replicas|
      ensures var up := EligibleReplicas(); var k := FirstUp(up, start, 0);
              if k == |up| then n == null else n == replicas[Along(start, k, |up|)]
      ensures n != null ==> n in replicas && Eligible(n)
      ensures n == null ==> forall r | r in replicas :: !Eligible(r)
    {
      var count := |replicas|;
      ghost var up := EligibleReplicas();
      for i := 0 to count
        invariant FirstUp(up, start, 0) == FirstUp(up, start, i)
      {
        Around(start, i, count);
        var candidate := replicas[(start + i) % count];
        if Eligible(candidate) { return candidate; }
      }
      NoneUp(up, start);
      return null;
    }

    /** PickReader: the first eligible replica from the counter's turn on, or the
        primary when there is none. A replica that is down, too far behind, or
        does not know how far behind it is, is not read from. */
    method PickReader() returns (n: Node)
      requires Valid()
      modifies `next
      ensures Valid() && next == if replicas == [] then old(next) else Bumped(old(next))
      ensures n == Reader(next)
      ensures n == primary || (n in replicas && Eligible(n))
      ensures n == primary <==> forall r | r in replicas :: !Eligible(r)
      ensures n != primary ==> n.up && (maxLag > 0 ==> 0 <= n.lag <= maxLag)
      ensures n == primary <==> forall r | r in replicas :: !r.up || (maxLag > 0 && (r.lag < 0 || r.lag > maxLag))
    {
      if |replicas| == 0 { return primary; }
      next := Bumped(next);
      assert Valid();
      var candidate := FirstEligible(next % |replicas|);
      if candidate == null { return primary; }
      NotPrimary(candidate);
      return candidate;
    }

    /** Several reads in a row, nothing else changing. */
    method ReadsInARow(count: nat) returns (nodes: seq<Node>)
      requires Valid() && replicas != []
      modifies `next
      ensures Valid() && |nodes| == count
      ensures forall k :: 0 <= k < count ==> nodes[k] == Reader(Later(old(next), k + 1))
    {
      hide Picked, EligibleReplicas, Bumped, Later, Proper;
      nodes := [];
      LaterNone(next);
      for i := 0 to count
        invariant Valid() && |nodes| == i && next == Later(old(next), i)
        invariant forall k :: 0 <= k < i ==> nodes[k] == Reader(Later(old(next), k + 1))
      {
        LaterOne(old(next), i);
        var n := PickReader();
        nodes := nodes + [n];
      }
    }

    lemma NotPrimary(n: Node)
      requires Valid() && n in replicas
      ensures n != primary
    {
      var i :| 0 <= i < |replicas| && replicas[i] == n;
      assert Addresses(replicas)[i] == n.address;
    }
  }

  // The counter of reads, one read later, and k reads later.
  function Bumped(next: nat): (r: nat)
    ensures r < WORD
  {
    (next + 1) % WORD
  }

  function Later(next: nat, k: nat): nat { (next + k) % WORD }

  lemma LaterNone(next: nat)
    requires next < WORD
    ensures Later(next, 0) == next
  {
  }

  lemma LaterOne(next: nat, k: nat)
    ensures Bumped(Later(next, k)) == Later(next, k + 1)
  {
    var x := next + k;
    var q, r := x / WORD, x % WORD;
    assert x == q * WORD + r;
    if r + 1 < WORD { ModUnique(q, r + 1, WORD); } else { ModUnique(q + 1, 0, WORD); }
  }

  // --- where a read goes ---

  // The k-th place from start on, around a ring of n.
  function Along(start: nat, k: nat, n: nat): (p: nat)
    requires start < n && k < n
    ensures p < n
  {
    if start + k < n then start + k else start + k - n
  }

  lemma Around(start: nat, k: nat, n: nat)
    requires start < n && k < n
    ensures (start + k) % n == Along(start, k, n)
  {
    if start + k >= n { ModUnique(1, start + k - n, n); }
  }

  // Every place is some number of steps away.
  function Steps(start: nat, p: nat, n: nat): (k: nat)
    requires start < n && p < n
    ensures k < n && Along(start, k, n) == p
  {
    if p >= start then p - start else p + n - start
  }

  // How many replicas are passed over before the first that is up.
  function FirstUp(up: seq<bool>, start: nat, i: nat): (r: nat)
    requires start < |up| && i <= |up|
    ensures i <= r <= |up|
    ensures r < |up| ==> up[Along(start, r, |up|)]
    ensures forall k :: i <= k < r ==> !up[Along(start, k, |up|)]
    decreases |up| - i
  {
    if i == |up| || up[Along(start, i, |up|)] then i else FirstUp(up, start, i + 1)
  }

  /** The replica a read goes to at a turn of the counter, if any is up. */
  function Picked(up: seq<bool>, turn: nat): (r: Option<nat>)
    ensures r.Some? ==> r.value < |up| && up[r.value]
  {
    if up == [] then None
    else
      var start := turn % |up|;
      var k := FirstUp(up, start, 0);
      if k == |up| then None else Some(Along(start, k, |up|))
  }

  lemma NoneUp(up: seq<bool>, start: nat)
    requires start < |up| && FirstUp(up, start, 0) == |up|
    ensures forall i :: 0 <= i < |up| ==> !up[i]
  {
    forall i | 0 <= i < |up| ensures !up[i] { assert Along(start, Steps(start, i, |up|), |up|) == i; }
  }

  // --- fairness of the rotation ---

  lemma MulBig(a: int, n: nat)
    requires a != 0 && n > 0
    ensures a * n >= n || a * n + n <= 0
  {
    if a > 0 { assert (a - 1) * n >= 0; } else { assert (-a - 1) * n >= 0; }
  }

  lemma ModUnique(q: nat, b: nat, n: nat)
    requires b < n
    ensures (q * n + b) % n == b
  {
    var x := q * n + b;
    var a := x / n - q;
    assert x == (x / n) * n + x % n;
    assert a * n == b - x % n;
    if a != 0 { MulBig(a, n); }
  }

  /** Whose turn the k-th read from now is, among n replicas. */
  function Turn(next: nat, k: nat, n: nat): (p: nat)
    requires n > 0
    ensures p < n
  {
    Later(next, k) % n
  }

  /** The counter does not wrap between the first and the last of some reads in
      a row, or n divides its range. */
  predicate Steady(next: nat, count: nat, n: nat)
    requires n > 0
  {
    next == WORD - 1 || next + count < WORD || WORD % n == 0
  }

  // Then every turn is one step from the turn before.
  lemma TurnsAlong(next: nat, count: nat, n: nat, k: nat)
    requires 0 < n <= WORD && next < WORD && Steady(next, count, n) && 1 <= k <= count <= n
    ensures Turn(next, k, n) == Along(Turn(next, 1, n), k - 1, n)
  {
    var first := if next == WORD - 1 then 0 else next + 1;
    TurnIs(next, count, 1, n, first);
    TurnIs(next, count, k, n, first + (k - 1));
    hide Turn, Later;
    AlongMod(first, k - 1, n);
  }

  lemma AlongMod(x: nat, k: nat, n: nat)
    requires k < n
    ensures (x + k) % n == Along(x % n, k, n)
  {
    var q, r := x / n, x % n;
    assert x == q * n + r;
    if r + k < n {
      ModUnique(q, r + k, n);
    } else {
      assert x + k == (q + 1) * n + (r + k - n);
      ModUnique(q + 1, r + k - n, n);
    }
  }

  lemma TurnIs(next: nat, count: nat, k: nat, n: nat, x: nat)
    requires 0 < n <= WORD && next < WORD && 1 <= k <= count <= n && Steady(next, count, n)
    requires x == next + k - (if next == WORD - 1 then WORD else 0)
    ensures Turn(next, k, n) == x % n
  {
    var y := next + k;
    if next == WORD - 1 {
      Wrapped(y);
    } else if next + count < WORD {
      assert y % WORD == y;
    } else {
      WrapsEvenly(y, n);
    }
  }

  lemma Wrapped(x: nat)
    requires WORD <= x < 2 * WORD
    ensures x % WORD == x - WORD
  {
  }

  lemma WrapsEvenly(x: nat, n: nat)
    requires 0 < n <= WORD && WORD % n == 0 && x < 2 * WORD
    ensures x % WORD % n == x % n
  {
    if x >= WORD {
      Wrapped(x);
      var y := x - WORD;
      var q, w := y / n, WORD / n;
      assert WORD == w * n && y == q * n + y % n;
      assert x == (q + w) * n + y % n;
      ModUnique(q + w, y % n, n);
    }
  }

  lemma TurnBefore(next: nat, k: nat, n: nat, q: nat, b: nat)
    requires b < n && next + k < WORD && next + k == q * n + b
    ensures Turn(next, k, n) == b
  {
    Small(next + k, WORD);
    assert Later(next, k) == next + k;
    ModUnique(q, b, n);
  }

  lemma TurnAfter(next: nat, k: nat, n: nat, b: nat)
    requires b < n <= WORD && next + k == WORD + b
    ensures Turn(next, k, n) == b
  {
    Wrapped(next + k);
    assert Later(next, k) == b;
    hide Later;
    Small(b, n);
  }

  // --- fairness ---

  function Ups(up: seq<bool>): set<nat> { set i | 0 <= i < |up| && up[i] }

  /** Where some reads in a row go, from a place of the ring on. */
  function PicksFrom(up: seq<bool>, start: nat, count: nat): (l: seq<Option<nat>>)
    requires start < |up| && count <= |up|
    ensures |l| == count && forall k :: 0 <= k < count ==> l[k] == Picked(up, Along(start, k, |up|))
  {
    seq(count, k requires 0 <= k < count => Picked(up, Along(start, k, |up|)))
  }

  /** Every eligible replica gets one of the reads, none gets two. */
  ghost predicate OneEach(up: seq<bool>, l: seq<Option<nat>>) {
    && (forall j, k :: 0 <= j < k < |l| ==> l[j] != l[k])
    && forall i :: i in Ups(up) ==> Some(i) in l
  }

  // The replica in turn is up, or it is passed over as the next one would be.
  lemma PickedUp(up: seq<bool>, p: nat)
    requires p < |up| && up[p]
    ensures Picked(up, p) == Some(p)
  {
    Small(p, |up|);
    assert Along(p, 0, |up|) == p;
  }

  lemma Small(p: nat, n: nat)
    requires p < n
    ensures p % n == p
  {
  }

  lemma AlongTwice(start: nat, j: nat, k: nat, n: nat)
    requires start < n && j < n && k < n && j + k < n
    ensures Along(Along(start, j, n), k, n) == Along(start, j + k, n)
  {
  }

  lemma PassedOver(up: seq<bool>, p: nat)
    requires p < |up| && !up[p] && |up| > 1
    ensures Picked(up, p) == Picked(up, Along(p, 1, |up|))
  {
    var n := |up|;
    var p' := Along(p, 1, n);
    Small(p, n);
    Small(p', n);
    forall k: nat | k < n - 1 ensures Along(p', k, n) == Along(p, 1 + k, n) { AlongTwice(p, 1, k, n); }
    assert Along(p', n - 1, n) == p == Along(p, 0, n);
    hide Along;
    var r, r' := FirstUp(up, p, 0), FirstUp(up, p', 0);
    if r < n { assert up[Along(p', r - 1, n)]; }
    assert r' < n - 1 ==> up[Along(p, 1 + r', n)];
  }

  // As many different eligible replicas as there are: all of them.
  lemma {:induction false} AllPicked(l: seq<Option<nat>>, ups: set<nat>)
    requires |l| == |ups| && (forall j, k :: 0 <= j < k < |l| ==> l[j] != l[k])
    requires forall k :: 0 <= k < |l| ==> l[k].Some? && l[k].value in ups
    ensures forall i :: i in ups ==> Some(i) in l
  {
    if l != [] {
      var init, last := l[..|l| - 1], l[|l| - 1];
      forall k | 0 <= k < |init| ensures init[k].Some? && init[k].value in ups - {last.value} { assert init[k] == l[k]; }
      AllPicked(init, ups - {last.value});
      assert l == init + [last];
    }
  }

  lemma {:induction false} FewPlaces(ups: set<nat>, start: nat, m: nat, n: nat)
    requires start < n && m <= n && forall i :: i in ups ==> exists k: nat :: k < m && Along(start, k, n) == i
    ensures |ups| <= m
  {
    if m == 0 {
      assert ups == {};
    } else {
      var last := Along(start, m - 1, n);
      FewPlaces(ups - {last}, start, m - 1, n);
      assert |ups| <= |ups - {last}| + 1 by { if last in ups { assert ups == (ups - {last}) + {last}; } else { assert ups - {last} == ups; } }
    }
  }

  lemma FewUps(up: seq<bool>, start: nat, m: nat)
    requires start < |up| && m <= |up| && forall k: nat :: m <= k < |up| ==> !up[Along(start, k, |up|)]
    ensures |Ups(up)| <= m
  {
    forall i | i in Ups(up) ensures exists k: nat :: k < m && Along(start, k, |up|) == i {
      var k := Steps(start, i, |up|);
    }
    FewPlaces(Ups(up), start, m, |up|);
  }

  // With all but the last turn on eligible replicas, the last read goes to the
  // one that is left.
  lemma LastPick(up: seq<bool>, start: nat, count: nat) returns (d: nat)
    requires start < |up| && 1 <= count == |Ups(up)|
    requires count <= |up| && forall k :: 0 <= k < count - 1 ==> up[Along(start, k, |up|)]
    ensures count - 1 <= d < |up| && Picked(up, Along(start, count - 1, |up|)) == Some(Along(start, d, |up|))
  {
    var n := |up|;
    var p := Along(start, count - 1, n);
    Small(p, n);
    var r := FirstUp(up, p, 0);
    if count - 1 + r >= n {
      forall k: nat | count - 1 <= k < n ensures !up[Along(start, k, n)] { AlongTwice(start, count - 1, k - (count - 1), n); }
      FewUps(up, start, count - 1);
    }
    d := count - 1 + r;
    AlongTwice(start, count - 1, r, n);
  }

  lemma AlongDiffers(start: nat, j: nat, k: nat, n: nat)
    requires start < n && j < k < n
    ensures Along(start, j, n) != Along(start, k, n)
  {
  }

  // As many reads as there are eligible replicas, from one place of the ring on.
  lemma RingIsFair(up: seq<bool>, start: nat)
    requires start < |up| && Ups(up) != {} && |Ups(up)| <= |up|
    ensures OneEach(up, PicksFrom(up, start, |Ups(up)|)) <==>
            forall k: nat :: k < |Ups(up)| - 1 ==> up[Along(start, k, |up|)]
  {
    var e, n := |Ups(up)|, |up|;
    var l := PicksFrom(up, start, e);
    if k: nat :| k < e - 1 && !up[Along(start, k, n)] {
      PassedOver(up, Along(start, k, n));
      AlongTwice(start, k, 1, n);
      assert l[k] == l[k + 1];
    } else {
      var d := LastPick(up, start, e);
      forall j, k | 0 <= j < k < e ensures l[j] != l[k] && l[j] == Some(Along(start, j, n)) {
        PickedUp(up, Along(start, j, n));
        if k < e - 1 {
          PickedUp(up, Along(start, k, n));
          AlongDiffers(start, j, k, n);
        } else {
          AlongDiffers(start, j, d, n);
        }
      }
      forall k | 0 <= k < e ensures l[k].Some? && l[k].value in Ups(up) {
        if k < e - 1 { PickedUp(up, Along(start, k, n)); }
      }
      AllPicked(l, Ups(up));
    }
  }

  /** Where the reads from now on go. */
  function Picks(up: seq<bool>, next: nat, count: nat): (l: seq<Option<nat>>)
    ensures |l| == count && forall k :: 0 <= k < count ==> l[k] == Picked(up, Later(next, k + 1))
  {
    seq(count, k requires 0 <= k < count => Picked(up, Later(next, k + 1)))
  }

  lemma PicksAlong(up: seq<bool>, next: nat, count: nat)
    requires 0 < |up| <= WORD && next < WORD && count <= |up| && Steady(next, count, |up|)
    ensures Picks(up, next, count) == PicksFrom(up, Turn(next, 1, |up|), count)
  {
    forall k: nat | k < count
      ensures Picked(up, Later(next, k + 1)) == Picked(up, Along(Turn(next, 1, |up|), k, |up|))
    {
      TurnsAlong(next, count, |up|, k + 1);
      Small(Turn(next, k + 1, |up|), |up|);
    }
  }

  /** Among n eligible replicas, n reads in a row go to each once exactly when
      the turns of the first n - 1 are turns of eligible ones: the turn of a
      replica that is down goes to the next, which then gets two. */
  lemma RotationIsFair(up: seq<bool>, next: nat)
    requires |up| <= WORD && next < WORD && Ups(up) != {} && Steady(next, |Ups(up)|, |up|)
    ensures OneEach(up, Picks(up, next, |Ups(up)|)) <==>
            forall k: nat :: 1 <= k < |Ups(up)| ==> up[Turn(next, k, |up|)]
  {
    var e, n := |Ups(up)|, |up|;
    var i :| i in Ups(up);
    FewUps(up, i, n);
    PicksAlong(up, next, e);
    RingIsFair(up, Turn(next, 1, n));
    forall k: nat | 1 <= k < e ensures Turn(next, k, n) == Along(Turn(next, 1, n), k - 1, n) { TurnsAlong(next, e, n, k); }
    hide *;
    if forall k: nat :: k < e - 1 ==> up[Along(Turn(next, 1, n), k, n)] {
    } else {
      var k: nat :| k < e - 1 && !up[Along(Turn(next, 1, n), k, n)];
      assert !up[Turn(next, k + 1, n)];
    }
  }

  /** A wrap between the reads is unfair too: with every replica eligible, none
      gets two of n reads in a row exactly when the counter does not wrap between
      them, or n divides its range. */
  lemma WrapIsUnfair(up: seq<bool>, next: nat)
    requires 0 < |up| <= WORD && next < WORD && forall i :: 0 <= i < |up| ==> up[i]
    ensures (forall j, k :: 0 <= j < k < |up| ==> Picks(up, next, |up|)[j] != Picks(up, next, |up|)[k]) <==>
            Steady(next, |up|, |up|)
  {
    var n, l := |up|, Picks(up, next, |up|);
    forall k: nat | k < n ensures l[k] == Some(Turn(next, k + 1, n)) {
      PickedUp(up, Turn(next, k + 1, n));
      Small(Turn(next, k + 1, n), n);
    }
    if Steady(next, n, n) {
      forall j, k | 0 <= j < k < n ensures l[j] != l[k] {
        TurnsAlong(next, n, n, j + 1);
        TurnsAlong(next, n, n, k + 1);
        AlongDiffers(Turn(next, 1, n), j, k, n);
      }
    } else {
      var j, k := WrapRepeats(next, n);
      assert l[j - 1] == l[k - 1];
    }
  }

  // Two of the reads around an uneven wrap have the same turn.
  lemma WrapRepeats(next: nat, n: nat) returns (j: nat, k: nat)
    requires 0 < n <= WORD && next < WORD && !Steady(next, n, n)
    ensures 1 <= j < k <= n && Turn(next, j, n) == Turn(next, k, n)
  {
    var r, q, before := WORD % n, WORD / n, WORD - 1 - next;
    assert WORD == q * n + r;
    hide Turn;
    if before <= r {
      // The first read here and the one r turns later.
      TurnBefore(next, 1, n, q, r - before);
      TurnAfter(next, 1 + r, n, r - before);
      j, k := 1, 1 + r;
    } else {
      // The first read after the wrap and the one r turns before it.
      TurnBefore(next, before + 1 - r, n, q, 0);
      TurnAfter(next, before + 1, n, 0);
      j, k := before + 1 - r, before + 1;
    }
  }
}
