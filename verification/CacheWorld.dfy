/** The cache's own tags meet what the coherence argument asks of a database:
    options and tables as cells, statements as the classifier sees them. */
module CacheWorld {
  import opened Common
  import opened Invalidation
  import opened Coherence

  type Database = Cell -> int

  /** A write in a database, with the contents it would leave behind. */
  datatype Change = Change(db: string, write: Write, contents: Database)

  datatype Read = Read(db: string, query: Query)

  ghost function Answer(c: Config, store: Database, r: Read): imap<Cell, int> {
    imap cell | Reads(c, r.db, r.query, cell) :: store(cell)
  }

  function Apply(c: Config, store: Database, w: Change): Database {
    (cell: Cell) => if Touches(c, w.db, w.write, cell) then w.contents(cell) else store(cell)
  }

  /** What InvalidateWrite drops; a read that is never cached does not matter. */
  predicate Affects(c: Config, w: Change, r: Read) {
    var plan := Classify(c, r.db, r.query);
    plan.Some? ==> Drops(Dropped(c, w.db, w.write), plan.value.tags)
  }

  ghost function Tagging(c: Config): World<Database, Read, (Write, Database), Change, imap<Cell, int>> {
    World((store: Database, r: Read) => Answer(c, store, r), (store: Database, w: Change) => Apply(c, store, w),
          (db: string, text: (Write, Database)) => Change(db, text.0, text.1), (w: Change, r: Read) => Affects(c, w, r))
  }

  // Rule i is the one its name finds.
  predicate Reachable(rules: seq<Rule>, i: nat)
    requires i < |rules|
  {
    forall j :: 0 <= j < i ==> rules[j].name != rules[i].name
  }

  /** No rule lists the options table among the tables that invalidate it. */
  predicate RulesAvoidOptions(c: Config) {
    forall i: nat :: i < |c.rules| && Reachable(c.rules, i) ==> c.optionsTable !in c.rules[i].invalidateOn
  }

  lemma {:induction false} RuleFound(rules: seq<Rule>, matched: set<string>) returns (i: nat)
    requires RuleFor(rules, matched).Some?
    ensures i < |rules| && RuleFor(rules, matched) == Some(rules[i])
    ensures forall j :: 0 <= j < i ==> rules[j].name !in matched
    ensures rules[i].name in matched
  {
    if rules[0].name in matched {
      i := 0;
    } else {
      var k := RuleFound(rules[1..], matched);
      i := k + 1;
      assert forall j :: 1 <= j < i ==> rules[j] == rules[1..][j - 1];
    }
  }

  lemma {:induction false} RuleNamed(rules: seq<Rule>, i: nat)
    requires i < |rules| && Reachable(rules, i)
    ensures RuleFor(rules, {rules[i].name}) == Some(rules[i])
  {
    if i > 0 {
      assert rules[0].name != rules[i].name;
      assert forall j :: 0 <= j < i - 1 ==> rules[1..][j] == rules[j + 1];
      RuleNamed(rules[1..], i - 1);
    }
  }

  lemma AnswerSame(c: Config, store: Database, w: Change, r: Read)
    requires RulesAvoidOptions(c) && !Affects(c, w, r)
    ensures Answer(c, Apply(c, store, w), r) == Answer(c, store, r)
  {
    DropsExactly(c, w.db, w.write, r.db, r.query);
    if RuleFor(c.rules, r.query.matched).Some? {
      var i := RuleFound(c.rules, r.query.matched);
    }
    assert !Blind(c, w.write, r.query);
    assert !Overlap(c, w.db, w.write, r.db, r.query);
    forall cell | Reads(c, r.db, r.query, cell) ensures Apply(c, store, w)(cell) == store(cell) {
      assert !Touches(c, w.db, w.write, cell);
    }
  }

  lemma OptionsRuleIsUnsound(c: Config, i: nat)
    requires i < |c.rules| && Reachable(c.rules, i) && c.optionsTable in c.rules[i].invalidateOn
    ensures !Sound(Tagging(c))
  {
    var m, store := Tagging(c), (cell: Cell) => 0;
    var w := Change("", Write(Some(c.optionsTable), ["siteurl"]), (cell: Cell) => 1);
    var r := Read("", Query(false, false, None, None, {c.rules[i].name}));
    var cell := OptionCell("", "siteurl");
    RuleNamed(c.rules, i);
    assert Blind(c, w.write, r.query);
    DropsExactly(c, "", w.write, "", r.query);
    assert !m.affects(w, r);
    assert Reads(c, "", r.query, cell) && Touches(c, "", w.write, cell);
    assert m.answer(m.apply(store, w), r)[cell] == 1;
    assert m.answer(store, r)[cell] == 0;
  }

  /** Tag invalidation is sound (whatever a write changes the answer of, it
      drops) exactly when no rule lists the options table. */
  lemma TaggingIsSound(c: Config)
    ensures Sound(Tagging(c)) <==> RulesAvoidOptions(c)
  {
    var m := Tagging(c);
    if RulesAvoidOptions(c) {
      forall store, w, r | !m.affects(w, r) ensures m.answer(m.apply(store, w), r) == m.answer(store, r) {
        AnswerSame(c, store, w, r);
      }
    } else {
      var i: nat :| i < |c.rules| && Reachable(c.rules, i) && c.optionsTable in c.rules[i].invalidateOn;
      OptionsRuleIsUnsound(c, i);
    }
  }

  // The world a moment later: what no write changes is different.
  function Later(store: Database, now: int): Database {
    (cell: Cell) => if cell.Unwritten? then now else store(cell)
  }

  /** The cache never holds a read whose answer changes without a write: those
      are exactly the volatile ones, and they are refused, whatever the patterns
      and the rules say. */
  lemma VolatileIsNotCached(c: Config, r: Read)
    ensures (exists store, now :: Answer(c, Later(store, now), r) != Answer(c, store, r)) <==> r.query.volatile
    ensures r.query.volatile ==> Classify(c, r.db, r.query) == None
  {
    if r.query.volatile {
      var store := (cell: Cell) => 0;
      assert Reads(c, r.db, r.query, Unwritten);
      assert Answer(c, Later(store, 1), r)[Unwritten] == 1 && Answer(c, store, r)[Unwritten] == 0;
    }
  }
}
