/** The list the store keeps, as the map the machine of Coherence speaks of: each
    operation of the one is a step of the other. */
module CacheMap {
  import opened Common
  import opened Invalidation
  import opened CacheStore
  import M = Coherence

  /** The same keys, with the same results. */
  ghost predicate Shows<R>(l: seq<Entry<R>>, cache: map<Key, M.Cached<R>>) {
    && (forall e | e in l :: e.key in cache && cache[e.key].value == e.result)
    && (forall k | k in cache :: exists e | e in l :: e.key == k)
  }

  ghost function KeysOf<R>(l: seq<Entry<R>>): set<Key> { set e | e in l :: e.key }

  /** Entries taken out (invalidated, evicted, or expired) are keys taken out. */
  lemma WithoutShows<R>(l: seq<Entry<R>>, entries: map<Key, Entry<R>>, cache: map<Key, M.Cached<R>>, gone: set<Entry<R>>)
    requires Keyed(l, entries) && Shows(l, cache) && gone <= set e | e in l
    ensures Shows(Without(l, gone), cache - set e | e in gone :: e.key)
  {
    WithoutMembers(l, gone);
    var keys := set e | e in gone :: e.key;
    forall k | k in cache - keys ensures exists e | e in Without(l, gone) :: e.key == k {
      var e :| e in l && e.key == k;
      assert e in Without(l, gone);
    }
  }

  /** What InvalidateWrite leaves is what the machine's Drop leaves. */
  lemma DropShows<R, W>(l: seq<Entry<R>>, entries: map<Key, Entry<R>>, cache: map<Key, M.Cached<R>>, dropped: Option<seq<Tag>>,
                        w: W, affects: (W, Key) -> bool)
    requires Keyed(l, entries) && Shows(l, cache)
    requires forall e | e in l :: affects(w, e.key) <==> Drops(dropped, e.tags)
    ensures Shows(Without(l, Hit(l, dropped)), M.Drop(cache, w, affects))
  {
    WithoutShows(l, entries, cache, Hit(l, dropped));
    forall k | k in cache ensures affects(w, k) <==> k in set e | e in Hit(l, dropped) :: e.key {
      var e :| e in l && e.key == k;
    }
    assert M.Drop(cache, w, affects) == cache - set e | e in Hit(l, dropped) :: e.key;
  }

  /** A hit changes nothing but the order. */
  lemma TouchShows<R>(l: seq<Entry<R>>, cache: map<Key, M.Cached<R>>, e: Entry<R>)
    requires Shows(l, cache) && e in l
    ensures Shows([e] + Without(l, {e}), cache)
  {
    WithoutMembers(l, {e});
    forall k | k in cache ensures exists d | d in [e] + Without(l, {e}) :: d.key == k {
      var d :| d in l && d.key == k;
      assert d in [e] + Without(l, {e});
    }
  }

  /** What Store leaves is what the machine's Store leaves, some other keys
      evicted. */
  lemma StoreShows<R>(l: seq<Entry<R>>, cache: map<Key, M.Cached<R>>, gone: set<Entry<R>>, e: Entry<R>, c: M.Cached<R>, q: nat)
    requires Shows(l, cache) && c.value == e.result
    requires forall x | x in l :: x in gone <==> x.key == e.key
    requires gone <= (set x | x in l) && q <= |Without(l, gone)|
    ensures var m := [e] + Without(l, gone)[..q];
            && KeysOf(m) <= cache[e.key := c].Keys && e.key in KeysOf(m)
            && Shows(m, cache[e.key := c] - (cache.Keys - KeysOf(m)))
  {
    var others := Without(l, gone);
    var m := [e] + others[..q];
    WithoutMembers(l, gone);
    forall x | x in m ensures x.key in cache[e.key := c] && cache[e.key := c][x.key].value == x.result {
      assert x == e || x in others;
    }
    forall k | k in KeysOf(m) ensures exists x | x in m :: x.key == k {}
    assert e in m;
  }
}
