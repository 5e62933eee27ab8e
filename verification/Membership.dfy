/** Which nodes make up the cluster: the recorded state, and how a running
    topology follows it (internal/topology/state.go, internal/topology/membership.go). */
module Membership {
  import opened Common

  // --- the recorded state ---

  function Drop(l: seq<string>, a: string): (r: seq<string>) {
    if l == [] then [] else if l[0] == a then Drop(l[1..], a) else [l[0]] + Drop(l[1..], a)
  }

  lemma {:induction false} DropMembers(l: seq<string>, a: string)
    ensures forall x :: x in Drop(l, a) <==> x in l && x != a
  {
    if l != [] {
      DropMembers(l[1..], a);
      assert l == [l[0]] + l[1..];
    }
  }

  /** The elements of l not among seen, each once, in order. */
  function Unseen(l: seq<string>, seen: set<string>): seq<string> {
    if l == [] then [] else if l[0] in seen then Unseen(l[1..], seen) else [l[0]] + Unseen(l[1..], seen + {l[0]})
  }

  lemma {:induction false} UnseenMembers(l: seq<string>, seen: set<string>)
    ensures forall x :: x in Unseen(l, seen) <==> x in l && x !in seen
    ensures NoRepeats(Unseen(l, seen))
  {
    if l != [] {
      assert l == [l[0]] + l[1..];
      UnseenMembers(l[1..], if l[0] in seen then seen else seen + {l[0]});
    }
  }

  /** (configured + added) - removed, configured ones first, each once. */
  ghost function MembersOf(configured: seq<string>, added: seq<string>, removed: seq<string>): seq<string> {
    Unseen(configured + added, set x | x in removed)
  }

  lemma {:induction false} UnseenConcat(x: seq<string>, y: seq<string>, seen: set<string>)
    ensures Unseen(x + y, seen) == Unseen(x, seen) + Unseen(y, seen + set a | a in x)
  {
    if x == [] {
      assert x + y == y && seen + (set a | a in x) == seen;
    } else {
      var seen' := if x[0] in seen then seen else seen + {x[0]};
      assert (x + y)[1..] == x[1..] + y && x == [x[0]] + x[1..];
      UnseenConcat(x[1..], y, seen');
      assert seen' + (set a | a in x[1..]) == seen + set a | a in x;
    }
  }

  lemma {:induction false} UnseenAll(l: seq<string>, seen: set<string>)
    requires NoRepeats(l) && forall a :: a in l ==> a !in seen
    ensures Unseen(l, seen) == l
  {
    if l != [] {
      assert l == [l[0]] + l[1..] && l[0] !in l[1..];
      UnseenAll(l[1..], seen + {l[0]});
    }
  }

  /** The nodes of the configuration come first, in its order, then those added:
      all of them, when none is listed twice or was removed. */
  lemma ConfiguredFirst(configured: seq<string>, added: seq<string>, removed: seq<string>)
    ensures Unseen(configured, set x | x in removed) <= MembersOf(configured, added, removed)
    ensures NoRepeats(configured + added) && (forall a :: a in configured + added ==> a !in removed) ==>
              MembersOf(configured, added, removed) == configured + added
  {
    UnseenConcat(configured, added, set x | x in removed);
    if NoRepeats(configured + added) && forall a :: a in configured + added ==> a !in removed {
      UnseenAll(configured + added, set x | x in removed);
    }
  }

  class State {
    var primary: string
    var added: seq<string>
    var removed: seq<string>

    constructor ()
      ensures primary == "" && added == [] && removed == []
    {
      primary, added, removed := "", [], [];
    }

    ghost function Listed(configured: seq<string>): seq<string>
      reads this
    {
      MembersOf(configured, added, removed)
    }

    method Without(list: seq<string>, a: string) returns (out: seq<string>)
      ensures out == Drop(list, a)
    {
      out := [];
      for i := 0 to |list|
        invariant out + Drop(list[i..], a) == Drop(list, a)
      {
        assert list[i..][1..] == list[i + 1..];
        if list[i] != a { out := out + [list[i]]; }
      }
    }

    /** AddNode: the node is a member from now on, the others as before. */
    method AddNode(a: string)
      modifies this`added, this`removed
      ensures forall configured, x :: x in Listed(configured) <==> x == a || x in old(Listed(configured))
    {
      ghost var wasAdded, wasRemoved := added, removed;
      removed := Without(removed, a);
      if a !in added { added := added + [a]; }
      DropMembers(wasRemoved, a);
      forall configured, x
        ensures x in MembersOf(configured, added, removed) <==> x == a || x in MembersOf(configured, wasAdded, wasRemoved)
      {
        UnseenMembers(configured + added, set y | y in removed);
        UnseenMembers(configured + wasAdded, set y | y in wasRemoved);
      }
    }

    /** RemoveNode: it is none from now on, whatever the configuration lists. */
    method RemoveNode(a: string)
      modifies this`added, this`removed
      ensures forall configured, x :: x in Listed(configured) <==> x != a && x in old(Listed(configured))
    {
      ghost var wasAdded, wasRemoved := added, removed;
      added := Without(added, a);
      if a !in removed { removed := removed + [a]; }
      DropMembers(wasAdded, a);
      forall configured, x
        ensures x in MembersOf(configured, added, removed) <==> x != a && x in MembersOf(configured, wasAdded, wasRemoved)
      {
        UnseenMembers(configured + added, set y | y in removed);
        UnseenMembers(configured + wasAdded, set y | y in wasRemoved);
      }
    }

    method Members(configured: seq<string>) returns (out: seq<string>)
      ensures out == Listed(configured)
    {
      var list := configured + added;
      var seen := {};
      ghost var gone := set x | x in removed;
      out := [];
      assert gone + seen == gone && list[0..] == list;
      for i := 0 to |list|
        invariant out + Unseen(list[i..], gone + seen) == Unseen(list, gone)
      {
        UnseenStep(list, i, gone, seen, out);
        if list[i] in seen || list[i] in removed { continue; }
        seen := seen + {list[i]};
        out := out + [list[i]];
      }
    }
  }

  lemma UnseenStep(list: seq<string>, i: nat, gone: set<string>, seen: set<string>, out: seq<string>)
    requires i < |list|
    ensures out + Unseen(list[i..], gone + seen) ==
            if list[i] in gone + seen then out + Unseen(list[i + 1..], gone + seen)
            else (out + [list[i]]) + Unseen(list[i + 1..], gone + (seen + {list[i]}))
  {
    assert list[i..][0] == list[i] && list[i..][1..] == list[i + 1..];
    assert gone + (seen + {list[i]}) == gone + seen + {list[i]};
  }

  // --- a pass over the state ---

  /** The nodes by address. */
  datatype Cluster = Cluster(primary: string, replicas: seq<string>)

  predicate Proper(c: Cluster) { c.primary !in c.replicas && NoRepeats(c.replicas) }

  predicate Has(c: Cluster, a: string) { a == c.primary || a in c.replicas }

  function Grown(c: Cluster, wanted: seq<string>, valid: string -> bool): Cluster
    decreases |wanted|
  {
    if wanted == [] then c
    else Grown(if Has(c, wanted[0]) || !valid(wanted[0]) then c else c.(replicas := c.replicas + [wanted[0]]), wanted[1..], valid)
  }

  function Kept(l: seq<string>, wanted: seq<string>): seq<string> {
    if l == [] then [] else if l[0] in wanted then [l[0]] + Kept(l[1..], wanted) else Kept(l[1..], wanted)
  }

  /** Promotion: the two change places. */
  function Promoted(c: Cluster, a: string): Cluster
    requires a in c.replicas
  {
    Cluster(a, Swapped(c.replicas, a, c.primary))
  }

  function Swapped(l: seq<string>, a: string, b: string): seq<string>
    requires a in l
  {
    if l[0] == a then [b] + l[1..] else [l[0]] + Swapped(l[1..], a, b)
  }

  /** syncState: nodes the state lists and the topology lacks come in, replicas
      it no longer lists go, and the recorded primary is adopted. */
  function Synced(c: Cluster, wanted: seq<string>, recorded: string, valid: string -> bool): Cluster {
    var g := Grown(c, wanted, valid);
    var k := g.(replicas := Kept(g.replicas, wanted));
    if recorded != "" && recorded != k.primary && recorded in k.replicas then Promoted(k, recorded) else k
  }

  lemma {:induction false} GrownFacts(c: Cluster, wanted: seq<string>, valid: string -> bool)
    requires Proper(c)
    ensures var g := Grown(c, wanted, valid);
            && Proper(g) && g.primary == c.primary && c.replicas <= g.replicas
            && forall x :: Has(g, x) <==> Has(c, x) || (x in wanted && valid(x))
    decreases |wanted|
  {
    if wanted != [] {
      assert wanted == [wanted[0]] + wanted[1..];
      var c' := if Has(c, wanted[0]) || !valid(wanted[0]) then c else c.(replicas := c.replicas + [wanted[0]]);
      GrownFacts(c', wanted[1..], valid);
    }
  }

  // A cluster that has everything wanted stays as it is.
  lemma {:induction false} GrownSame(c: Cluster, wanted: seq<string>, valid: string -> bool)
    requires forall x :: x in wanted && valid(x) ==> Has(c, x)
    ensures Grown(c, wanted, valid) == c
    decreases |wanted|
  {
    if wanted != [] {
      assert wanted[0] in wanted;
      GrownSame(c, wanted[1..], valid);
    }
  }

  lemma {:induction false} KeptFacts(l: seq<string>, wanted: seq<string>)
    ensures forall x :: x in Kept(l, wanted) <==> x in l && x in wanted
    ensures NoRepeats(l) ==> NoRepeats(Kept(l, wanted))
    ensures (forall x :: x in l ==> x in wanted) ==> Kept(l, wanted) == l
  {
    if l != [] {
      var rest := l[1..];
      assert l == [l[0]] + rest;
      KeptFacts(rest, wanted);
      if NoRepeats(l) { TailDiffers(l); }
    }
  }

  lemma TailDiffers(l: seq<string>)
    requires l != [] && NoRepeats(l)
    ensures l[0] !in l[1..] && NoRepeats(l[1..])
  {
    assert forall i, j :: 0 <= i < j < |l[1..]| ==> l[1..][i] == l[i + 1] && l[1..][j] == l[j + 1];
  }

  lemma {:induction false} SwappedFacts(l: seq<string>, a: string, b: string)
    requires a in l && NoRepeats(l) && b !in l
    ensures var r := Swapped(l, a, b);
            NoRepeats(r) && |r| == |l| && forall x :: x in r <==> (x in l && x != a) || x == b
  {
    assert l == [l[0]] + l[1..];
    TailDiffers(l);
    if l[0] != a { SwappedFacts(l[1..], a, b); }
  }

  predicate AllValid(c: Cluster, valid: string -> bool) {
    valid(c.primary) && forall x :: x in c.replicas ==> valid(x)
  }

  /** The primary a pass leaves: the recorded one when the state lists it. */
  function Elected(c: Cluster, wanted: seq<string>, recorded: string, valid: string -> bool): string {
    if recorded != "" && recorded in wanted && valid(recorded) then recorded else c.primary
  }

  // What one pass leaves: the members wanted, and the primary it demoted.
  lemma SyncedFacts(c: Cluster, wanted: seq<string>, recorded: string, valid: string -> bool)
    requires Proper(c) && AllValid(c, valid)
    ensures var s := Synced(c, wanted, recorded, valid);
            && Proper(s) && AllValid(s, valid) && s.primary == Elected(c, wanted, recorded, valid)
            && forall x :: x in s.replicas <==>
                 x != s.primary && ((x in wanted && valid(x)) || (x == c.primary && s.primary != c.primary))
  {
    var g := Grown(c, wanted, valid);
    GrownFacts(c, wanted, valid);
    var k := g.(replicas := Kept(g.replicas, wanted));
    KeptFacts(g.replicas, wanted);
    assert forall x :: x in k.replicas <==> x != k.primary && x in wanted && valid(x) by {
      assert forall x :: x in g.replicas ==> Has(g, x);
    }
    if recorded != "" && recorded != k.primary && recorded in k.replicas {
      SwappedFacts(k.replicas, recorded, k.primary);
    }
  }

  // A cluster whose replicas are the members wanted, and whose primary is the
  // recorded one if that is wanted, stays as it is.
  lemma SyncedStays(c: Cluster, wanted: seq<string>, recorded: string, valid: string -> bool)
    requires Proper(c) && c.primary == Elected(c, wanted, recorded, valid)
    requires forall x :: x in c.replicas <==> x != c.primary && x in wanted && valid(x)
    ensures Synced(c, wanted, recorded, valid) == c
  {
    GrownSame(c, wanted, valid);
    KeptFacts(c.replicas, wanted);
  }

  /** With a fixed state file, two passes reach a fixed point from any cluster:
      the replicas are exactly the members without the primary, and the primary
      is the recorded one exactly when that was already so or it is a member. */
  lemma TwoPassesSuffice(c: Cluster, wanted: seq<string>, recorded: string, valid: string -> bool)
    requires Proper(c) && AllValid(c, valid)
    ensures var s := Synced(Synced(c, wanted, recorded, valid), wanted, recorded, valid);
            && Synced(s, wanted, recorded, valid) == s && Proper(s)
            && (forall x :: x in s.replicas <==> x != s.primary && x in wanted && valid(x))
            && (s.primary == recorded <==> c.primary == recorded || (recorded != "" && recorded in wanted && valid(recorded)))
            && (s.primary != recorded ==> s.primary == c.primary)
  {
    var s1 := Synced(c, wanted, recorded, valid);
    SyncedFacts(c, wanted, recorded, valid);
    SyncedFacts(s1, wanted, recorded, valid);
    SyncedStays(Synced(s1, wanted, recorded, valid), wanted, recorded, valid);
  }

  /** One pass is not always enough: the primary it demotes, when the state does
      not list it, stays until the next one. */
  lemma OnePassMayNotSuffice(p: string, r: string, valid: string -> bool)
    requires p != r && r != "" && valid(r)
    ensures var s := Synced(Cluster(p, [r]), [r], r, valid);
            s == Cluster(r, [p]) && Synced(s, [r], r, valid) == Cluster(r, [])
  {
    GrownSame(Cluster(p, [r]), [r], valid);
    GrownSame(Cluster(r, [p]), [r], valid);
    assert [r][1..] == [] && [p][1..] == [];
    assert Kept([r], [r]) == [r] && Kept([p], [r]) == [] && Swapped([r], r, p) == [p];
  }
}
