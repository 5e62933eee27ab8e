/** How a session keeps the cache in step with what it writes
    (internal/proxy/session.go, observe and endTx). */
module Observer {
  import opened Common
  import opened Invalidation
  import opened CacheStore
  import S = Statement

  /** The entries that any of some writes drops. */
  ghost function HitAny<R>(l: seq<Entry<R>>, c: Config, db: string, writes: seq<Write>): set<Entry<R>> {
    set e | e in l && exists i :: 0 <= i < |writes| && Drops(Dropped(c, db, writes[i]), e.tags)
  }

  // One more write drops what it hits among what the others left.
  lemma HitMore<R>(l: seq<Entry<R>>, c: Config, db: string, writes: seq<Write>, w: Write)
    ensures var kept := Without(l, HitAny(l, c, db, writes));
            Without(kept, Hit(kept, Dropped(c, db, w))) == Without(l, HitAny(l, c, db, writes + [w]))
  {
    var kept := Without(l, HitAny(l, c, db, writes));
    WithoutTwice(l, HitAny(l, c, db, writes), Hit(kept, Dropped(c, db, w)));
    WithoutMembers(l, HitAny(l, c, db, writes));
    forall e | e in l
      ensures e in HitAny(l, c, db, writes + [w]) <==> e in HitAny(l, c, db, writes) || Drops(Dropped(c, db, w), e.tags)
    {
      assert (writes + [w])[|writes|] == w;
      if i :| 0 <= i < |writes| && Drops(Dropped(c, db, writes[i]), e.tags) { assert (writes + [w])[i] == writes[i]; }
    }
    assert HitAny(l, c, db, writes) + Hit(kept, Dropped(c, db, w)) == HitAny(l, c, db, writes + [w]);
  }

  /** What observing statements changes: the cache, and what the session
      remembers of its open transaction. */
  datatype View<R> = View(lru: seq<Entry<R>>, txWrites: seq<Write>, txOverflow: bool)

  /** A statement of the session (its kind, what it writes, whether a transaction
      is open after it, and the database it ran in), or anything other sessions
      make of the cache. */
  datatype Event<R> = Own(kind: S.Kind, write: Write, inTx: bool, db: string) | Others(lru: seq<Entry<R>>)

  /** observe, as a step on what it changes. */
  ghost function Observed<R>(v: View<R>, c: Config, e: Event<R>): View<R> {
    match e
    case Others(l) => v.(lru := l)
    case Own(kind, w, inTx, db) =>
      match kind
      case Write => Remembered(v.(lru := Without(v.lru, Hit(v.lru, Dropped(c, db, w)))), w, inTx)
      case Commit => View(if v.txOverflow then [] else Without(v.lru, HitAny(v.lru, c, db, v.txWrites)), [], false)
      case Rollback => View(v.lru, [], false)
      case _ => v
  }

  function Remembered<R>(v: View<R>, w: Write, inTx: bool): View<R> {
    if !inTx then v
    else if |v.txWrites| >= MAX_TRACKED then v.(txOverflow := true) else v.(txWrites := v.txWrites + [w])
  }

  lemma HitNoWrites<R>(l: seq<Entry<R>>, c: Config, db: string)
    ensures Without(l, HitAny(l, c, db, [])) == l
  {
    WithoutNone(l, HitAny(l, c, db, []));
  }

  class Session<R> {
    const cache: Cache<R>
    const config: Config
    var db: string
    var txWrites: seq<Write>
    var txOverflow: bool
    var cacheUnsafe: bool

    // Every write of the open transaction, in full.
    ghost var written: seq<Write>

    ghost predicate Valid()
      reads this, cache
    {
      cache.Valid() && |txWrites| <= MAX_TRACKED && (!txOverflow ==> txWrites == written)
    }

    ghost function Seen(): View<R>
      reads this, cache
    {
      View(cache.lru, txWrites, txOverflow)
    }

    constructor (cache: Cache<R>, config: Config, db: string)
      requires cache.Valid()
      ensures Valid() && this.cache == cache && this.config == config && this.db == db && written == []
      ensures Seen() == View(cache.lru, [], false)
    {
      this.cache, this.config, this.db := cache, config, db;
      txWrites, txOverflow, cacheUnsafe, written := [], false, false, [];
    }

    /** observe, of a write: invalidated at once, and remembered for COMMIT when
        a transaction is open. */
    method ObserveWrite(w: Write, inTx: bool)
      requires Valid()
      modifies this`txWrites, this`txOverflow, this`written, cache
      ensures Valid() && cache.lru == Without(old(cache.lru), Hit(old(cache.lru), Dropped(config, db, w)))
      ensures written == if inTx then old(written) + [w] else old(written)
      ensures Seen() == Observed(old(Seen()), config, Own(S.Write, w, inTx, db))
    {
      hide Hit, Without, Dropped;
      var warm := cache.InvalidateWrite(config, db, w);
      if inTx {
        if |txWrites| >= MAX_TRACKED {
          txOverflow := true;
        } else {
          txWrites := txWrites + [w];
        }
        written := written + [w];
      }
    }

    /** endTx: after a COMMIT the entries any write of the transaction drops are
        gone, the writes past the cap included; a ROLLBACK changes nothing. */
    method EndTx(commit: bool)
      requires Valid()
      modifies this`txWrites, this`txOverflow, this`written, cache
      ensures Valid() && written == [] && txWrites == [] && !txOverflow
      ensures !commit ==> cache.lru == old(cache.lru) && cache.entries == old(cache.entries)
      ensures commit ==> forall e, i | e in cache.lru && 0 <= i < |old(written)| ::
                !Drops(Dropped(config, db, old(written)[i]), e.tags)
      ensures commit && !old(txOverflow) ==>
                cache.lru == Without(old(cache.lru), HitAny(old(cache.lru), config, db, old(written)))
      ensures commit && old(txOverflow) ==> cache.lru == []
    {
      hide Hit, Without, Dropped, Agree, HitAny, Drops;
      ghost var l, writes := cache.lru, written;
      if commit {
        if txOverflow {
          var warm := cache.Flush();
        } else {
          HitNoWrites(l, config, db);
          for i := 0 to |txWrites|
            invariant Valid() && txWrites == writes && cache.lru == Without(l, HitAny(l, config, db, writes[..i]))
            invariant txOverflow == old(txOverflow)
          {
            var warm := cache.InvalidateWrite(config, db, txWrites[i]);
            HitMore(l, config, db, writes[..i], txWrites[i]);
            assert writes[..i + 1] == writes[..i] + [txWrites[i]];
          }
          assert writes[..|writes|] == writes;
          Cleared(l, config, db, writes);
        }
      }
      txWrites, txOverflow, written := [], false, [];
    }

    /** observe, by the kind of statement: the step the laws below are about. */
    method Observe(kind: S.Kind, w: Write, inTx: bool)
      requires Valid()
      modifies this`txWrites, this`txOverflow, this`written, this`cacheUnsafe, cache
      ensures Valid()
      ensures Seen() == Observed(old(Seen()), config, Own(kind, w, inTx, db))
      ensures written == if kind.Write? && inTx then old(written) + [w]
                         else if kind.Commit? || kind.Rollback? then [] else old(written)
      ensures kind.Write? ==> forall e | e in cache.lru :: !Drops(Dropped(config, db, w), e.tags)
      ensures kind.Commit? ==> forall e, i | e in cache.lru && 0 <= i < |old(written)| ::
                !Drops(Dropped(config, db, old(written)[i]), e.tags)
      ensures !kind.Write? && !kind.Commit? ==> cache.lru == old(cache.lru)
      ensures cacheUnsafe <==> old(cacheUnsafe) || kind.Unsafe?
    {
      ghost var l := cache.lru;
      match kind
      case Write =>
        ObserveWrite(w, inTx);
        WithoutMembers(l, Hit(l, Dropped(config, db, w)));
      case Commit => EndTx(true);
      case Rollback => EndTx(false);
      case Unsafe => cacheUnsafe := true;
      case _ =>
    }
  }

  lemma Cleared<R>(l: seq<Entry<R>>, c: Config, db: string, writes: seq<Write>)
    ensures forall e, i | e in Without(l, HitAny(l, c, db, writes)) && 0 <= i < |writes| ::
              !Drops(Dropped(c, db, writes[i]), e.tags)
  {
    WithoutMembers(l, HitAny(l, c, db, writes));
  }

  // --- what a transaction leaves behind ---

  ghost function After<R>(c: Config, events: seq<Event<R>>): View<R>
    decreases |events|
  {
    if events == [] then View([], [], false) else Observed(After(c, events[..|events| - 1]), c, events[|events| - 1])
  }

  predicate Ends<R>(e: Event<R>) { e.Own? && (e.kind.Commit? || e.kind.Rollback?) }

  predicate WritesInTx<R>(e: Event<R>) { e.Own? && e.kind.Write? && e.inTx }

  /** The i-th event is a write of the transaction still open at the end. */
  ghost predicate Open<R>(events: seq<Event<R>>, i: int) {
    0 <= i < |events| && WritesInTx(events[i]) && forall j :: i < j < |events| ==> !Ends(events[j])
  }

  ghost function OpenWrites<R>(events: seq<Event<R>>): set<int> {
    set i | 0 <= i < |events| && Open(events, i)
  }

  lemma OpenNext<R>(events: seq<Event<R>>, e: Event<R>)
    ensures OpenWrites(events + [e]) == if Ends(e) then {} else OpenWrites(events) + if WritesInTx(e) then {|events|} else {}
  {
    var longer := events + [e];
    assert longer[|events|] == e;
    forall i | 0 <= i < |events| ensures Open(longer, i) <==> Open(events, i) && !Ends(e) {
      assert longer[i] == events[i];
      if Open(longer, i) {
        forall j | i < j < |events| ensures !Ends(events[j]) { assert longer[j] == events[j]; }
      }
    }
  }

  // One of the writes of the open transaction.
  ghost predicate Wrote<R>(events: seq<Event<R>>, w: Write) {
    exists i :: i in OpenWrites(events) && events[i].write == w
  }

  // What a session remembers is the writes of the open transaction, as long as
  // they are no more than the cap.
  ghost predicate Remembers<R>(v: View<R>, events: seq<Event<R>>) {
    && (v.txOverflow <==> |OpenWrites(events)| > MAX_TRACKED)
    && |v.txWrites| == (if v.txOverflow then MAX_TRACKED else |OpenWrites(events)|)
    && (!v.txOverflow ==> forall w :: w in v.txWrites <==> Wrote(events, w))
  }

  lemma WroteNext<R>(events: seq<Event<R>>, e: Event<R>, w: Write)
    ensures Wrote(events + [e], w) <==> !Ends(e) && (Wrote(events, w) || (WritesInTx(e) && e.write == w))
  {
    var longer := events + [e];
    OpenNext(events, e);
    assert longer[|events|] == e && forall i :: 0 <= i < |events| ==> longer[i] == events[i];
    if i :| i in OpenWrites(events) && events[i].write == w {
      if !Ends(e) { assert i in OpenWrites(longer) && longer[i].write == w; }
    }
    if WritesInTx(e) && e.write == w { assert |events| in OpenWrites(longer) && longer[|events|].write == w; }
    if i :| i in OpenWrites(longer) && longer[i].write == w {
      if i < |events| { assert i in OpenWrites(events) && events[i].write == w; }
    }
  }

  lemma RemembersNext<R>(c: Config, v: View<R>, events: seq<Event<R>>, e: Event<R>)
    requires Remembers(v, events)
    ensures Remembers(Observed(v, c, e), events + [e])
  {
    OpenNext(events, e);
    forall w ensures Wrote(events + [e], w) <==> !Ends(e) && (Wrote(events, w) || (WritesInTx(e) && e.write == w)) {
      WroteNext(events, e, w);
    }
    assert |events| !in OpenWrites(events);
    hide OpenWrites, Wrote, Without, Hit, HitAny, Dropped, Open;
  }

  lemma {:induction false} RunRemembers<R>(c: Config, events: seq<Event<R>>)
    ensures Remembers(After(c, events), events)
    decreases |events|
  {
    if events != [] {
      var before, last := events[..|events| - 1], events[|events| - 1];
      RunRemembers(c, before);
      RemembersNext(c, After(c, before), before, last);
      assert before + [last] == events;
    }
  }

  /** A COMMIT keeps exactly the entries that no write of its transaction drops,
      and none when there were more than the cap: whatever the session did
      before, and whatever other sessions stored since those writes. After a
      COMMIT or a ROLLBACK nothing is open, and a COMMIT drops nothing for what
      came before. */
  lemma CommitKeeps<R>(c: Config, events: seq<Event<R>>, w: Write, inTx: bool, db: string, e: Entry<R>)
    ensures var open := OpenWrites(events);
            e in After(c, events + [Own(S.Commit, w, inTx, db)]).lru <==>
            && e in After(c, events).lru && |open| <= MAX_TRACKED
            && forall i :: i in open ==> !Drops(Dropped(c, db, events[i].write), e.tags)
  {
    var v, end := After(c, events), Own(S.Commit, w, inTx, db);
    RunRemembers(c, events);
    assert (events + [end])[..|events|] == events;
    if !v.txOverflow {
      WithoutMembers(v.lru, HitAny(v.lru, c, db, v.txWrites));
      if e in HitAny(v.lru, c, db, v.txWrites) {
        var k :| 0 <= k < |v.txWrites| && Drops(Dropped(c, db, v.txWrites[k]), e.tags);
        assert Wrote(events, v.txWrites[k]);
      }
      if i :| i in OpenWrites(events) && Drops(Dropped(c, db, events[i].write), e.tags) {
        assert Wrote(events, events[i].write);
      }
    }
  }

  /** So no entry is left that a write of the transaction drops. */
  lemma CommitDropsAll<R>(c: Config, events: seq<Event<R>>, i: nat, w: Write, inTx: bool, db: string)
    requires i < |events| && WritesInTx(events[i]) && forall j :: i < j < |events| ==> !Ends(events[j])
    ensures forall e | e in After(c, events + [Own(S.Commit, w, inTx, db)]).lru :: !Drops(Dropped(c, db, events[i].write), e.tags)
  {
    forall e | e in After(c, events + [Own(S.Commit, w, inTx, db)]).lru
      ensures !Drops(Dropped(c, db, events[i].write), e.tags)
    {
      CommitKeeps(c, events, w, inTx, db, e);
      assert Open(events, i);
    }
  }

  /** A transaction that has ended owes nothing to the next COMMIT. */
  lemma EndedOwesNothing<R>(c: Config, events: seq<Event<R>>, k: nat, w: Write, inTx: bool, db: string, e: Entry<R>)
    requires k < |events| && Ends(events[k]) && forall j :: k < j < |events| ==> !WritesInTx(events[j])
    ensures e in After(c, events + [Own(S.Commit, w, inTx, db)]).lru <==> e in After(c, events).lru
  {
    CommitKeeps(c, events, w, inTx, db, e);
    forall i | 0 <= i < |events| ensures !Open(events, i) {
      if i < k { assert Ends(events[k]); }
    }
    assert OpenWrites(events) == {};
  }
}
