/** The query cache's store (internal/cache/cache.go, internal/cache/paired.go):
    one set of entries kept as a key map, a recency list, a tag index, a byte
    total and per-source totals. Everything is a function of the recency list. */
module CacheStore {
  import opened Common
  import opened Invalidation

  datatype Key = Plain(db: string, text: string) | Paired(db: string, text: string)

  class Entry<R> {
    const key: Key
    const result: R
    const expires: int
    const tags: seq<Tag>
    const source: string
    const bytes: nat
    var foundRows: nat
    var hasFoundRows: bool

    constructor (key: Key, result: R, expires: int, tags: seq<Tag>, source: string, bytes: nat)
      ensures this.key == key && this.result == result && this.expires == expires
      ensures this.tags == tags && this.source == source && this.bytes == bytes
      ensures foundRows == 0 && !hasFoundRows
    {
      this.key, this.result, this.expires := key, result, expires;
      this.tags, this.source, this.bytes := tags, source, bytes;
      foundRows, hasFoundRows := 0, false;
    }
  }

  datatype SourceStat = SourceStat(hits: nat, entries: int, bytes: int)

  // --- the recency list ---

  /** The list without some entries, the others in their order. */
  ghost function Without<R>(l: seq<Entry<R>>, gone: set<Entry<R>>): seq<Entry<R>> {
    if l == [] then [] else if l[0] in gone then Without(l[1..], gone) else [l[0]] + Without(l[1..], gone)
  }

  lemma {:induction false} WithoutMembers<R>(l: seq<Entry<R>>, gone: set<Entry<R>>)
    ensures forall e | e in Without(l, gone) :: e in l && e !in gone
    ensures forall e | e in l :: e !in gone ==> e in Without(l, gone)
  {
    if l != [] { WithoutMembers(l[1..], gone); }
  }

  ghost function Total<R>(l: seq<Entry<R>>, f: Entry<R> -> int): int {
    if l == [] then 0 else f(l[0]) + Total(l[1..], f)
  }

  ghost function Bytes<R>(): Entry<R> -> int { (e: Entry<R>) => e.bytes }

  ghost function BytesFrom<R>(source: string): Entry<R> -> int { (e: Entry<R>) => if e.source == source then e.bytes else 0 }

  ghost function CountFrom<R>(source: string): Entry<R> -> int { (e: Entry<R>) => if e.source == source then 1 else 0 }

  ghost function Tagged<R>(l: seq<Entry<R>>, tag: Tag): set<Entry<R>> { set e | e in l && tag in e.tags }

  // What a map of sets holds for a tag; nothing when it has no set for it.
  function At<R>(byTag: map<Tag, set<Entry<R>>>, tag: Tag): set<Entry<R>> { if tag in byTag then byTag[tag] else {} }

  lemma {:induction false} TotalConcat<R>(x: seq<Entry<R>>, y: seq<Entry<R>>, f: Entry<R> -> int)
    ensures Total(x + y, f) == Total(x, f) + Total(y, f)
  {
    if x == [] {
      assert x + y == y;
    } else {
      assert (x + y)[1..] == x[1..] + y;
      TotalConcat(x[1..], y, f);
    }
  }

  lemma {:induction false} WithoutConcat<R>(x: seq<Entry<R>>, y: seq<Entry<R>>, gone: set<Entry<R>>)
    ensures Without(x + y, gone) == Without(x, gone) + Without(y, gone)
  {
    if x == [] {
      assert x + y == y;
    } else {
      assert (x + y)[1..] == x[1..] + y;
      WithoutConcat(x[1..], y, gone);
    }
  }

  lemma {:induction false} WithoutNone<R>(l: seq<Entry<R>>, gone: set<Entry<R>>)
    requires forall e :: e in l ==> e !in gone
    ensures Without(l, gone) == l
  {
    if l != [] { WithoutNone(l[1..], gone); }
  }

  lemma {:induction false} WithoutTwice<R>(l: seq<Entry<R>>, x: set<Entry<R>>, y: set<Entry<R>>)
    ensures Without(Without(l, x), y) == Without(l, x + y)
  {
    if l != [] {
      WithoutTwice(l[1..], x, y);
      if l[0] !in x {
        assert ([l[0]] + Without(l[1..], x))[1..] == Without(l[1..], x);
      }
    }
  }

  lemma WithoutMiddle<R>(x: seq<Entry<R>>, e: Entry<R>, y: seq<Entry<R>>)
    requires e !in x && e !in y
    ensures Without(x + ([e] + y), {e}) == x + y
  {
    WithoutConcat(x, [e] + y, {e});
    WithoutNone(x, {e});
    WithoutNone(y, {e});
    assert ([e] + y)[1..] == y;
  }

  lemma {:induction false} WithoutOne<R>(l: seq<Entry<R>>, i: nat)
    requires NoRepeats(l) && i < |l|
    ensures Without(l, {l[i]}) == l[..i] + l[i + 1..] && l == l[..i] + ([l[i]] + l[i + 1..])
  {
    Split(l, i);
    Elsewhere(l, i);
    WithoutMiddle(l[..i], l[i], l[i + 1..]);
  }

  lemma Split<R>(l: seq<Entry<R>>, i: nat)
    requires i < |l|
    ensures l == l[..i] + ([l[i]] + l[i + 1..])
  {
  }

  lemma Elsewhere<R>(l: seq<Entry<R>>, i: nat)
    requires NoRepeats(l) && i < |l|
    ensures l[i] !in l[..i] && l[i] !in l[i + 1..]
  {
  }

  lemma {:induction false} WithoutDistinct<R>(l: seq<Entry<R>>, gone: set<Entry<R>>)
    requires NoRepeats(l)
    ensures NoRepeats(Without(l, gone))
  {
    if l != [] {
      assert forall i, j :: 0 <= i < j < |l[1..]| ==> l[1..][i] == l[i + 1] && l[1..][j] == l[j + 1];
      WithoutDistinct(l[1..], gone);
      WithoutMembers(l[1..], gone);
      assert l[0] !in l[1..];
    }
  }

  // Taking one entry out of a list takes its share out of every total.
  lemma TotalWithout<R>(l: seq<Entry<R>>, e: Entry<R>, f: Entry<R> -> int)
    requires NoRepeats(l) && e in l
    ensures Total(Without(l, {e}), f) == Total(l, f) - f(e)
  {
    var i :| 0 <= i < |l| && l[i] == e;
    WithoutOne(l, i);
    TotalConcat(l[..i], [e] + l[i + 1..], f);
    TotalConcat([e], l[i + 1..], f);
    TotalConcat(l[..i], l[i + 1..], f);
    assert [e][1..] == [];
  }

  // --- the structures that must agree with the list ---

  ghost predicate Keyed<R>(l: seq<Entry<R>>, entries: map<Key, Entry<R>>) {
    && NoRepeats(l)
    && (forall e | e in l :: e.key in entries && entries[e.key] == e)
    && (forall k | k in entries :: entries[k] in l && entries[k].key == k)
  }

  ghost predicate Indexed<R>(l: seq<Entry<R>>, byTag: map<Tag, set<Entry<R>>>) {
    (forall tag :: At(byTag, tag) == Tagged(l, tag)) && forall tag | tag in byTag :: byTag[tag] != {}
  }

  ghost predicate Counted<R>(l: seq<Entry<R>>, sources: map<string, SourceStat>) {
    && (forall e | e in l :: e.source in sources)
    && (forall s | s in sources ::
          sources[s].entries == Total(l, CountFrom(s)) && sources[s].bytes == Total(l, BytesFrom(s)))
  }

  // Hits are counted elsewhere: known sources keep theirs, new ones have none.
  ghost predicate SameHits(was: map<string, SourceStat>, now: map<string, SourceStat>) {
    was.Keys <= now.Keys && forall s | s in now :: now[s].hits == if s in was then was[s].hits else 0
  }

  function OneHit(sources: map<string, SourceStat>, source: string): map<string, SourceStat>
    requires source in sources
  {
    sources[source := sources[source].(hits := sources[source].hits + 1)]
  }

  lemma KeyedWithout<R>(l: seq<Entry<R>>, entries: map<Key, Entry<R>>, e: Entry<R>)
    requires Keyed(l, entries) && e in l
    ensures Keyed(Without(l, {e}), entries - {e.key})
  {
    WithoutDistinct(l, {e});
    WithoutMembers(l, {e});
  }

  lemma KeyedFront<R>(l: seq<Entry<R>>, entries: map<Key, Entry<R>>, e: Entry<R>)
    requires Keyed(l, entries) && e !in l && e.key !in entries
    ensures Keyed([e] + l, entries[e.key := e])
  {
  }

  lemma TaggedWithout<R>(l: seq<Entry<R>>, e: Entry<R>, tag: Tag)
    ensures Tagged(Without(l, {e}), tag) == Tagged(l, tag) - {e}
  {
    WithoutMembers(l, {e});
  }

  lemma TaggedFront<R>(l: seq<Entry<R>>, e: Entry<R>, tag: Tag)
    ensures Tagged([e] + l, tag) == Tagged(l, tag) + if tag in e.tags then {e} else {}
  {
  }

  lemma {:induction false} CountedWithout<R>(l: seq<Entry<R>>, sources: map<string, SourceStat>, e: Entry<R>)
    requires NoRepeats(l) && Counted(l, sources) && e in l
    ensures Counted(Without(l, {e}), Less(sources, e))
  {
    WithoutMembers(l, {e});
    forall s ensures Total(Without(l, {e}), CountFrom(s)) == Total(l, CountFrom(s)) - if e.source == s then 1 else 0
             ensures Total(Without(l, {e}), BytesFrom(s)) == Total(l, BytesFrom(s)) - if e.source == s then e.bytes else 0
    {
      TotalWithout(l, e, CountFrom(s));
      TotalWithout(l, e, BytesFrom(s));
    }
  }

  lemma {:induction false} NoneFrom<R>(l: seq<Entry<R>>, source: string)
    requires forall e | e in l :: e.source != source
    ensures Total(l, CountFrom(source)) == 0 && Total(l, BytesFrom(source)) == 0
  {
    if l != [] { NoneFrom(l[1..], source); }
  }

  lemma CountedFront<R>(l: seq<Entry<R>>, sources: map<string, SourceStat>, e: Entry<R>)
    requires Counted(l, sources)
    ensures Counted([e] + l, More(sources, e))
  {
    assert ([e] + l)[1..] == l;
    if e.source !in sources { NoneFrom(l, e.source); }
  }

  /** All the structures of the store agree with the recency list. */
  ghost predicate Agree<R>(l: seq<Entry<R>>, entries: map<Key, Entry<R>>, byTag: map<Tag, set<Entry<R>>>, bytes: int,
                           sources: map<string, SourceStat>) {
    Keyed(l, entries) && Indexed(l, byTag) && Counted(l, sources) && bytes == Total(l, Bytes())
  }

  lemma Parts<R>(l: seq<Entry<R>>, entries: map<Key, Entry<R>>, byTag: map<Tag, set<Entry<R>>>, bytes: int,
                 sources: map<string, SourceStat>)
    requires Agree(l, entries, byTag, bytes, sources)
    ensures NoRepeats(l) && Keyed(l, entries) && Indexed(l, byTag) && Counted(l, sources)
  {
  }

  function Less<R>(sources: map<string, SourceStat>, e: Entry<R>): map<string, SourceStat> {
    if e.source !in sources then sources
    else
      var st := sources[e.source];
      sources[e.source := SourceStat(st.hits, st.entries - 1, st.bytes - e.bytes)]
  }

  function More<R>(sources: map<string, SourceStat>, e: Entry<R>): map<string, SourceStat> {
    var st := if e.source in sources then sources[e.source] else SourceStat(0, 0, 0);
    sources[e.source := SourceStat(st.hits, st.entries + 1, st.bytes + e.bytes)]
  }

  lemma AgreeWithout<R>(l: seq<Entry<R>>, entries: map<Key, Entry<R>>, byTag: map<Tag, set<Entry<R>>>, bytes: int,
                        sources: map<string, SourceStat>, e: Entry<R>, byTag': map<Tag, set<Entry<R>>>)
    requires Agree(l, entries, byTag, bytes, sources) && e in l && Indexed(Without(l, {e}), byTag')
    ensures Agree(Without(l, {e}), entries - {e.key}, byTag', bytes - e.bytes, Less(sources, e))
    ensures SameHits(sources, Less(sources, e))
  {
    KeyedWithout(l, entries, e);
    CountedWithout(l, sources, e);
    TotalWithout(l, e, Bytes());
  }

  lemma AgreeFront<R>(l: seq<Entry<R>>, entries: map<Key, Entry<R>>, byTag: map<Tag, set<Entry<R>>>, bytes: int,
                      sources: map<string, SourceStat>, e: Entry<R>, byTag': map<Tag, set<Entry<R>>>)
    requires Agree(l, entries, byTag, bytes, sources) && e !in l && e.key !in entries && Indexed([e] + l, byTag')
    ensures Agree([e] + l, entries[e.key := e], byTag', bytes + e.bytes, More(sources, e))
    ensures SameHits(sources, More(sources, e))
  {
    KeyedFront(l, entries, e);
    CountedFront(l, sources, e);
    assert ([e] + l)[1..] == l;
  }

  // Moving an entry to the front changes the order, and its source's hits.
  lemma {:induction false} ToFront<R>(l: seq<Entry<R>>, e: Entry<R>, entries: map<Key, Entry<R>>, byTag: map<Tag, set<Entry<R>>>, bytes: int,
                   sources: map<string, SourceStat>)
    requires e in l && Agree(l, entries, byTag, bytes, sources)
    ensures e.source in sources
    ensures Agree([e] + Without(l, {e}), entries, byTag, bytes, OneHit(sources, e.source))
  {
    hide Without, Tagged, Total, NoRepeats;
    var m := [e] + Without(l, {e});
    WithoutDistinct(l, {e});
    WithoutMembers(l, {e});
    KeyedMoved(l, e, entries);
    forall tag ensures Tagged(m, tag) == Tagged(l, tag) { TaggedMoved(l, e, tag); }
    forall s ensures Total(m, CountFrom(s)) == Total(l, CountFrom(s)) && Total(m, BytesFrom(s)) == Total(l, BytesFrom(s)) {
      TotalMoved(l, e, CountFrom(s));
      TotalMoved(l, e, BytesFrom(s));
    }
    TotalMoved(l, e, Bytes());
  }

  lemma KeyedMoved<R>(l: seq<Entry<R>>, e: Entry<R>, entries: map<Key, Entry<R>>)
    requires e in l && Keyed(l, entries)
    ensures Keyed([e] + Without(l, {e}), entries)
  {
    WithoutDistinct(l, {e});
    WithoutMembers(l, {e});
  }

  lemma TaggedMoved<R>(l: seq<Entry<R>>, e: Entry<R>, tag: Tag)
    requires e in l
    ensures Tagged([e] + Without(l, {e}), tag) == Tagged(l, tag)
  {
    TaggedFront(Without(l, {e}), e, tag);
    TaggedWithout(l, e, tag);
  }

  lemma TotalMoved<R>(l: seq<Entry<R>>, e: Entry<R>, f: Entry<R> -> int)
    requires NoRepeats(l) && e in l
    ensures Total([e] + Without(l, {e}), f) == Total(l, f)
  {
    assert ([e] + Without(l, {e}))[1..] == Without(l, {e});
    TotalWithout(l, e, f);
  }

  // --- eviction ---

  /** Whether the q most recent of l can stay beside a new entry of a size. */
  ghost predicate Fits<R>(l: seq<Entry<R>>, q: nat, room: nat, limit: int, size: nat)
    requires q <= |l|
  {
    q == 0 || (q <= room && (limit > 0 ==> size + Total(l[..q], Bytes()) <= limit))
  }

  /** How many of the most recent of l stay: the most that fit. */
  ghost function Keep<R>(l: seq<Entry<R>>, room: nat, limit: int, size: nat): (q: nat)
    ensures q <= |l| && Fits(l, q, room, limit, size)
    ensures forall p {:trigger Fits(l, p, room, limit, size)} | q < p <= |l| :: !Fits(l, p, room, limit, size)
  {
    if Fits(l, |l|, room, limit, size) then |l|
    else
      assert forall p {:trigger Fits(l, p, room, limit, size)} | 0 <= p < |l| ::
          l[..|l| - 1][..p] == l[..p] && Fits(l, p, room, limit, size) == Fits(l[..|l| - 1], p, room, limit, size);
      Keep(l[..|l| - 1], room, limit, size)
  }

  ghost predicate OverBudget<R>(l: seq<Entry<R>>, p: nat, limit: int)
    requires p < |l|
  {
    limit > 0 && Total(l[..p + 1], Bytes()) > limit
  }

  // The tag sets forget an entry, and the empty ones go.
  method Untag<R>(byTag: map<Tag, set<Entry<R>>>, e: Entry<R>, ghost l: seq<Entry<R>>) returns (r: map<Tag, set<Entry<R>>>)
    requires Indexed(l, byTag) && e in l
    ensures Indexed(Without(l, {e}), r)
  {
    r := byTag;
    for k := 0 to |e.tags|
      invariant forall tag :: At(r, tag) == Tagged(l, tag) - if tag in e.tags[..k] then {e} else {}
      invariant forall tag | tag in r :: r[tag] != {}
    {
      var tag := e.tags[k];
      if tag in r {
        var left := r[tag] - {e};
        r := if left == {} then r - {tag} else r[tag := left];
      }
      assert e.tags[..k + 1] == e.tags[..k] + [tag];
    }
    assert e.tags[..|e.tags|] == e.tags;
    forall tag ensures At(r, tag) == Tagged(Without(l, {e}), tag) { TaggedWithout(l, e, tag); }
  }

  // The tag sets learn of an entry.
  method Index<R>(byTag: map<Tag, set<Entry<R>>>, e: Entry<R>, ghost l: seq<Entry<R>>) returns (r: map<Tag, set<Entry<R>>>)
    requires Indexed(l, byTag)
    ensures Indexed([e] + l, r)
  {
    r := byTag;
    for k := 0 to |e.tags|
      invariant forall tag :: At(r, tag) == Tagged(l, tag) + if tag in e.tags[..k] then {e} else {}
      invariant forall tag | tag in r :: r[tag] != {}
    {
      var tag := e.tags[k];
      r := r[tag := (if tag in r then r[tag] else {}) + {e}];
      assert e.tags[..k + 1] == e.tags[..k] + [tag];
    }
    assert e.tags[..|e.tags|] == e.tags;
    forall tag ensures At(r, tag) == Tagged([e] + l, tag) { TaggedFront(l, e, tag); }
  }

  // The recency list without one of its elements.
  method Unlink<R>(l: seq<Entry<R>>, e: Entry<R>) returns (r: seq<Entry<R>>)
    requires NoRepeats(l) && e in l
    ensures r == Without(l, {e})
  {
    var i :| 0 <= i < |l| && l[i] == e;
    WithoutOne(l, i);
    r := l[..i] + l[i + 1..];
  }

  class Cache<R> {
    var entries: map<Key, Entry<R>>
    var lru: seq<Entry<R>>
    var byTag: map<Tag, set<Entry<R>>>
    var bytes: int
    var sources: map<string, SourceStat>
    var learned: map<string, string>
    var hits: nat
    var misses: nat
    var maxEntries: nat
    var maxBytes: int
    var maxResultBytes: int

    ghost predicate Valid()
      reads this
    {
      Agree(lru, entries, byTag, bytes, sources) && maxEntries > 0
    }

    constructor (maxEntries: nat, maxBytes: int, maxResultBytes: int)
      requires maxEntries > 0
      ensures Valid() && lru == []
    {
      entries, lru, byTag, bytes, sources, learned := map[], [], map[], 0, map[], map[];
      hits, misses := 0, 0;
      this.maxEntries, this.maxBytes, this.maxResultBytes := maxEntries, maxBytes, maxResultBytes;
    }

    // removeLocked
    method Remove(e: Entry<R>)
      requires Valid() && e in lru
      modifies `entries, `lru, `byTag, `bytes, `sources
      ensures Valid() && lru == Without(old(lru), {e}) && SameHits(old(sources), sources)
    {
      hide Agree, Indexed, Counted, Without, Total, Less, SameHits;
      Parts(lru, entries, byTag, bytes, sources);
      var left := Unlink(lru, e);
      var tagged := Untag(byTag, e, lru);
      AgreeWithout(lru, entries, byTag, bytes, sources, e, tagged);
      entries := entries - {e.key};
      lru := left;
      bytes := bytes - e.bytes;
      sources := Less(sources, e);
      byTag := tagged;
    }

    method EvictLast()
      requires Valid() && lru != []
      modifies `entries, `lru, `byTag, `bytes, `sources
      ensures Valid() && lru == old(lru)[..|old(lru)| - 1] && SameHits(old(sources), sources)
    {
      WithoutOne(lru, |lru| - 1);
      Remove(lru[|lru| - 1]);
    }

    // A new entry in front of the others.
    method PushFront(e: Entry<R>)
      requires Valid() && e !in lru && e.key !in entries
      modifies `entries, `lru, `byTag, `bytes, `sources
      ensures Valid() && lru == [e] + old(lru) && SameHits(old(sources), sources)
    {
      hide Agree, Indexed, Counted, Without, Total, More, SameHits;
      Parts(lru, entries, byTag, bytes, sources);
      var tagged := Index(byTag, e, lru);
      AgreeFront(lru, entries, byTag, bytes, sources, e, tagged);
      lru := [e] + lru;
      entries := entries[e.key := e];
      bytes := bytes + e.bytes;
      sources := More(sources, e);
      byTag := tagged;
    }

    ghost function Others(k: Key): seq<Entry<R>>
      reads this
    {
      if k in entries then Without(lru, {entries[k]}) else lru
    }

    // The entry a key already has goes first.
    method Replace(k: Key)
      requires Valid()
      modifies `entries, `lru, `byTag, `bytes, `sources
      ensures Valid() && lru == old(Others(k)) && k !in entries && SameHits(old(sources), sources)
    {
      if k in entries {
        WithoutMembers(lru, {entries[k]});
        Remove(entries[k]);
      }
    }

    method MakeRoom(ghost k: Key)
      requires Valid() && k !in entries
      modifies `entries, `lru, `byTag, `bytes, `sources
      ensures Valid() && k !in entries && SameHits(old(sources), sources)
      ensures lru == old(lru)[..Min(|old(lru)|, maxEntries - 1)]
    {
      assert forall e | e in lru :: e.key != k;
      ghost var q: nat := |lru|;
      while |lru| >= maxEntries
        invariant Valid() && q <= |old(lru)| && lru == old(lru)[..q] && SameHits(old(sources), sources)
        invariant q >= Min(|old(lru)|, maxEntries - 1)
      {
        EvictLast();
        assert old(lru)[..q][..q - 1] == old(lru)[..q - 1];
        q := q - 1;
      }
    }

    // Down to the byte budget, but never to nothing.
    method Shrink() returns (ghost q: nat)
      requires Valid() && lru != []
      modifies `entries, `lru, `byTag, `bytes, `sources
      ensures Valid() && SameHits(old(sources), sources)
      ensures q < |old(lru)| && lru == old(lru)[..q + 1]
      ensures q == 0 || maxBytes <= 0 || Total(lru, Bytes()) <= maxBytes
      ensures forall p: nat | q < p < |old(lru)| :: OverBudget(old(lru), p, maxBytes)
    {
      q := |lru| - 1;
      assert lru[..q + 1] == lru;
      while maxBytes > 0 && bytes > maxBytes && |lru| > 1
        invariant Valid() && q < |old(lru)| && lru == old(lru)[..q + 1] && SameHits(old(sources), sources)
        invariant forall p: nat | q < p < |old(lru)| :: OverBudget(old(lru), p, maxBytes)
        decreases |lru|
      {
        EvictLast();
        assert old(lru)[..q + 1][..q] == old(lru)[..q];
        q := q - 1;
      }
    }

    /** insertLocked: the new entry, followed by the longest prefix of the other
        entries, most recent first, that fits both bounds beside it. */
    method Insert(k: Key, result: R, expires: int, tags: seq<Tag>, source: string, size: nat) returns (e: Entry<R>)
      requires Valid()
      modifies `entries, `lru, `byTag, `bytes, `sources
      ensures Valid() && fresh(e) && SameHits(old(sources), sources)
      ensures e.key == k && e.result == result && e.expires == expires && e.tags == tags && e.source == source
      ensures e.bytes == size && !e.hasFoundRows
      ensures lru == [e] + old(Others(k))[..Keep(old(Others(k)), maxEntries - 1, maxBytes, size)]
    {
      hide Agree, Without, Keep, Total, OverBudget;
      ghost var others := Others(k);
      Replace(k);
      MakeRoom(k);
      e := new Entry(k, result, expires, tags, source, size);
      PushFront(e);
      ghost var q := Shrink();
      KeepIs(e, others, q, maxEntries - 1, maxBytes);
    }

    // A served entry becomes the most recent and counts as a hit.
    method Touch(e: Entry<R>)
      requires Valid() && e in lru
      modifies `lru, `hits, `sources
      ensures Valid() && lru == [e] + Without(old(lru), {e}) && hits == old(hits) + 1
      ensures e.source in old(sources) && sources == OneHit(old(sources), e.source)
    {
      hide Agree, Without, Total, Indexed;
      Parts(lru, entries, byTag, bytes, sources);
      ToFront(lru, e, entries, byTag, bytes, sources);
      var others := Unlink(lru, e);
      lru := [e] + others;
      hits := hits + 1;
      sources := OneHit(sources, e.source);
    }

    /** lookup: serves a live entry, drops an expired one. */
    method Lookup(k: Key, now: int) returns (r: Option<R>)
      requires Valid()
      modifies `entries, `lru, `byTag, `bytes, `sources, `hits
      ensures Valid()
      ensures r.Some? <==> k in old(entries) && now <= old(entries)[k].expires
      ensures r.Some? ==> old(entries)[k].source in old(sources) && sources == OneHit(old(sources), old(entries)[k].source)
      ensures r.Some? ==> && r.value == old(entries)[k].result && hits == old(hits) + 1
                          && lru == [old(entries)[k]] + Without(old(lru), {old(entries)[k]})
      ensures r.None? ==> lru == old(Others(k)) && hits == old(hits) && SameHits(old(sources), sources)
    {
      if k !in entries { return None; }
      var e := entries[k];
      if now > e.expires {
        Remove(e);
        return None;
      }
      Touch(e);
      return Some(e.result);
    }

    /** LookupPaired: rows and count together, or nothing. */
    method LookupPaired(k: Key, now: int) returns (r: Option<(R, nat)>)
      requires Valid()
      modifies `entries, `lru, `byTag, `bytes, `sources, `hits
      ensures Valid()
      ensures r.Some? <==> k in old(entries) && old(entries)[k].hasFoundRows && now <= old(entries)[k].expires
      ensures r.Some? ==> old(entries)[k].source in old(sources) && sources == OneHit(old(sources), old(entries)[k].source)
      ensures r.Some? ==> && r.value == (old(entries)[k].result, old(entries)[k].foundRows) && hits == old(hits) + 1
                          && lru == [old(entries)[k]] + Without(old(lru), {old(entries)[k]})
      ensures r.None? ==> hits == old(hits) && SameHits(old(sources), sources)
                          && lru == if k in old(entries) && old(entries)[k].hasFoundRows then old(Others(k)) else old(lru)
    {
      if k !in entries { return None; }
      var e := entries[k];
      if !e.hasFoundRows { return None; }
      if now > e.expires {
        Remove(e);
        return None;
      }
      Touch(e);
      return Some((e.result, e.foundRows));
    }

    /** store: replies without rows (rows = false) and results above
        max_result_bytes are refused, and the warmer's own fetches (counted =
        false) are no misses. */
    method Store(k: Key, result: R, rows: bool, size: nat, expires: int, plan: Plan, counted: bool, text: string)
      requires Valid()
      modifies `entries, `lru, `byTag, `bytes, `sources, `misses, `learned
      ensures Valid() && SameHits(old(sources), sources)
      ensures misses == old(misses) + if counted && rows && size <= maxResultBytes then 1 else 0
      ensures !rows || size > maxResultBytes ==> lru == old(lru) && learned == old(learned)
      ensures rows && size <= maxResultBytes ==>
                && k in entries && fresh(entries[k]) && entries[k].result == result && entries[k].tags == plan.tags
                && entries[k].source == plan.source
                && entries[k].expires == expires && entries[k].bytes == size && !entries[k].hasFoundRows
                && lru == [entries[k]] + old(Others(k))[..Keep(old(Others(k)), maxEntries - 1, maxBytes, size)]
                && learned == if plan.source == "alloptions" then old(learned)[k.db := text] else old(learned)
    {
      hide Agree, Without, Keep, Total, Indexed, Counted;
      if !rows { return; }
      if size > maxResultBytes { return; }
      if counted { misses := misses + 1; }
      var e := Insert(k, result, expires, plan.tags, plan.source, size);
      Parts(lru, entries, byTag, bytes, sources);
      assert lru[0] == e;
      if plan.source == "alloptions" { learned := learned[k.db := text]; }
    }

    /** PairFoundRows completes a listing stored a moment ago, if it is still there. */
    method PairFoundRows(k: Key, count: nat)
      requires Valid()
      modifies if k in entries then {entries[k]} else {}
      ensures Valid()
      ensures k in entries ==> entries[k].hasFoundRows && entries[k].foundRows == count
    {
      if k in entries {
        entries[k].foundRows := count;
        entries[k].hasFoundRows := true;
      }
    }

    /** dropTagLocked: exactly the entries of a tag go, while its set shrinks
        under the iteration; the others keep their order. */
    method DropTag(tag: Tag)
      requires Valid()
      modifies `entries, `lru, `byTag, `bytes, `sources
      ensures Valid() && lru == Without(old(lru), Tagged(old(lru), tag)) && SameHits(old(sources), sources)
    {
      ghost var l, gone := lru, {};
      WithoutNone(l, gone);
      while tag in byTag
        invariant Valid() && lru == Without(l, gone) && gone <= Tagged(l, tag) && SameHits(old(sources), sources)
        decreases |Tagged(l, tag) - gone|
      {
        var e :| e in byTag[tag];
        assert e in At(byTag, tag);
        DropOne(l, gone, tag, e);
        Remove(e);
        gone := gone + {e};
      }
      assert At(byTag, tag) == {};
      DropDone(l, gone, tag);
    }

    // The next tag of those a write drops.
    method DropNext(ghost l: seq<Entry<R>>, ghost dropped: seq<Tag>, tag: Tag)
      requires Valid() && lru == Without(l, Hit(l, Some(dropped)))
      modifies `entries, `lru, `byTag, `bytes, `sources
      ensures Valid() && lru == Without(l, Hit(l, Some(dropped + [tag]))) && SameHits(old(sources), sources)
    {
      DropTag(tag);
      HitNext(l, dropped, tag);
    }

    /** Flush: everything goes, and the warmer is asked for the queries learned. */
    method Flush() returns (warm: map<string, string>)
      requires Valid()
      modifies `entries, `lru, `byTag, `bytes, `sources
      ensures warm == learned
      ensures Valid() && lru == [] && entries == map[] && byTag == map[] && bytes == 0 && sources == map[]
    {
      entries, lru, byTag, bytes, sources := map[], [], map[], 0, map[];
      warm := learned;
    }

    /** InvalidateWrite: exactly the entries whose tags the write drops go. The
        warmer is asked for the queries whose snapshots it dropped. */
    method InvalidateWrite(c: Config, db: string, w: Write) returns (warm: map<string, string>)
      requires Valid()
      modifies `entries, `lru, `byTag, `bytes, `sources
      ensures Valid() && lru == Without(old(lru), Hit(old(lru), Dropped(c, db, w)))
      ensures if w.table == None then sources == map[] else SameHits(old(sources), sources)
      ensures warm == if w.table == None then learned
                      else if w.table == Some(c.optionsTable) && (w.names == [] || !AllTransient(w.names)) && db in learned
                      then map[db := learned[db]] else map[]
    {
      hide Agree, Without, Hit;
      ghost var l := lru;
      if w.table == None {
        HitAll(l);
        warm := Flush();
        return;
      }
      var optionsWrite := w.table.value == c.optionsTable;
      var hitAutoload := false;
      HitNone(l);
      if optionsWrite && |w.names| > 0 {
        ghost var dropped: seq<Tag> := [];
        hitAutoload := WriteHitsAutoload(w.names);
        if hitAutoload {
          DropNext(l, dropped, SnapshotTag(db));
          dropped := dropped + [SnapshotTag(db)];
        }
        ghost var first := dropped;
        for i := 0 to |w.names|
          invariant Valid() && dropped == first + OptionTags(db, w.names)[..i] && lru == Without(l, Hit(l, Some(dropped)))
          invariant SameHits(old(sources), sources)
        {
          DropNext(l, dropped, OptionTag(db, w.names[i]));
          dropped := dropped + [OptionTag(db, w.names[i])];
          assert OptionTags(db, w.names)[..i + 1] == OptionTags(db, w.names)[..i] + [OptionTag(db, w.names[i])];
        }
        assert OptionTags(db, w.names)[..|w.names|] == OptionTags(db, w.names);
        assert dropped == (if AllTransient(w.names) then [] else [SnapshotTag(db)]) + OptionTags(db, w.names);
      } else {
        hitAutoload := optionsWrite;
        DropNext(l, [], TableTag(db, w.table.value));
        assert [] + [TableTag(db, w.table.value)] == [TableTag(db, w.table.value)];
      }
      warm := if optionsWrite && hitAutoload && db in learned then map[db := learned[db]] else map[];
    }
  }

  /** The entries a write drops. */
  ghost function Hit<R>(l: seq<Entry<R>>, dropped: Option<seq<Tag>>): set<Entry<R>> {
    set e | e in l && Drops(dropped, e.tags)
  }

  lemma HitNone<R>(l: seq<Entry<R>>)
    ensures Without(l, Hit(l, Some([]))) == l
  {
    WithoutNone(l, Hit(l, Some([])));
  }

  lemma {:induction false} WithoutAll<R>(l: seq<Entry<R>>, gone: set<Entry<R>>)
    requires forall e | e in l :: e in gone
    ensures Without(l, gone) == []
  {
    if l != [] { WithoutAll(l[1..], gone); }
  }

  lemma HitAll<R>(l: seq<Entry<R>>)
    ensures Without(l, Hit(l, None)) == []
  {
    WithoutAll(l, Hit(l, None));
  }

  lemma HitNext<R>(l: seq<Entry<R>>, dropped: seq<Tag>, tag: Tag)
    ensures var kept := Without(l, Hit(l, Some(dropped)));
            Without(kept, Tagged(kept, tag)) == Without(l, Hit(l, Some(dropped + [tag])))
  {
    var kept := Without(l, Hit(l, Some(dropped)));
    WithoutTwice(l, Hit(l, Some(dropped)), Tagged(kept, tag));
    WithoutMembers(l, Hit(l, Some(dropped)));
    forall e | e in l
      ensures Drops(Some(dropped + [tag]), e.tags) <==> Drops(Some(dropped), e.tags) || tag in e.tags
    {
      if Drops(Some(dropped), e.tags) {
        var i :| 0 <= i < |e.tags| && e.tags[i] in dropped;
        assert e.tags[i] in dropped + [tag];
      }
    }
    assert Hit(l, Some(dropped)) + Tagged(kept, tag) == Hit(l, Some(dropped + [tag]));
  }

  lemma {:induction false} DropOne<R>(l: seq<Entry<R>>, gone: set<Entry<R>>, tag: Tag, e: Entry<R>)
    requires e in Tagged(Without(l, gone), tag) && gone <= Tagged(l, tag)
    ensures Without(Without(l, gone), {e}) == Without(l, gone + {e}) && gone + {e} <= Tagged(l, tag)
    ensures |Tagged(l, tag) - (gone + {e})| < |Tagged(l, tag) - gone|
  {
    WithoutMembers(l, gone);
    WithoutTwice(l, gone, {e});
    assert Tagged(l, tag) - (gone + {e}) == Tagged(l, tag) - gone - {e};
  }

  lemma DropDone<R>(l: seq<Entry<R>>, gone: set<Entry<R>>, tag: Tag)
    requires gone <= Tagged(l, tag) && Tagged(Without(l, gone), tag) == {}
    ensures gone == Tagged(l, tag)
  {
    WithoutMembers(l, gone);
    forall e | e in Tagged(l, tag) ensures e in gone {
      assert e !in Tagged(Without(l, gone), tag);
    }
  }

  function Min(x: int, y: int): int { if x < y then x else y }

  // What the two loops leave is what Keep says.
  lemma KeepIs<R>(e: Entry<R>, others: seq<Entry<R>>, q: nat, room: nat, limit: int)
    requires q <= Min(|others|, room)
    requires q == 0 || limit <= 0 || Total(([e] + others[..Min(|others|, room)])[..q + 1], Bytes()) <= limit
    requires forall p: nat | q < p <= Min(|others|, room) :: OverBudget([e] + others[..Min(|others|, room)], p, limit)
    ensures q == Keep(others, room, limit, e.bytes)
    ensures ([e] + others[..Min(|others|, room)])[..q + 1] == [e] + others[..q]
  {
    var n := Min(|others|, room);
    var l := [e] + others[..n];
    forall p: nat | p <= n
      ensures Total(([e] + others[..n])[..p + 1], Bytes()) == e.bytes + Total(others[..p], Bytes())
    {
      assert ([e] + others[..n])[..p + 1] == [e] + others[..p];
      assert ([e] + others[..p])[1..] == others[..p];
    }
    assert Fits(others, q, room, limit, e.bytes);
    var k := Keep(others, room, limit, e.bytes);
    assert Fits(others, k, room, limit, e.bytes);
    assert k > q ==> OverBudget(l, k, limit);
  }
}
