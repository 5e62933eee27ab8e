/** Which cached reads a write drops (internal/cache/cache.go, internal/cache/sql.go).
    What the regular expressions extract from a statement is given. */
module Invalidation {
  import opened Common

  datatype Tag = TableTag(db: string, table: string) | OptionTag(db: string, name: string) | SnapshotTag(db: string)

  /** A conf.d rule: the tables whose writes drop what it caches. */
  datatype Rule = Rule(name: string, ttl: int, invalidateOn: seq<string>)

  /** The settings classify looks at. */
  datatype Config = Config(optionsTable: string, autoloadOptions: bool, transients: bool, defaultTTL: int, rules: seq<Rule>)

  /** A SELECT, as the patterns see it: option is the name of a single-option
      read, names those of an IN list, matched the rules that match. */
  datatype Query = Query(volatile: bool, autoload: bool, option: Option<string>, names: Option<seq<string>>,
                         matched: set<string>)

  /** A write: the one table extractTable found, the names extractOptionNames did. */
  datatype Write = Write(table: Option<string>, names: seq<string>)

  datatype Plan = Plan(ttl: int, tags: seq<Tag>, source: string)

  predicate IsTransient(name: string) { "_transient_" <= name || "_site_transient_" <= name }

  function OptionTags(db: string, names: seq<string>): (tags: seq<Tag>)
    ensures |tags| == |names| && forall i :: 0 <= i < |names| ==> tags[i] == OptionTag(db, names[i])
  {
    seq(|names|, i requires 0 <= i < |names| => OptionTag(db, names[i]))
  }

  function TableTags(db: string, tables: seq<string>): (tags: seq<Tag>)
    ensures |tags| == |tables| && forall i :: 0 <= i < |tables| ==> tags[i] == TableTag(db, tables[i])
  {
    seq(|tables|, i requires 0 <= i < |tables| => TableTag(db, tables[i]))
  }

  predicate AllTransient(names: seq<string>) { forall i :: 0 <= i < |names| ==> IsTransient(names[i]) }

  // The first rule that matches.
  function RuleFor(rules: seq<Rule>, matched: set<string>): Option<Rule> {
    if rules == [] then None
    else if rules[0].name in matched then Some(rules[0])
    else RuleFor(rules[1..], matched)
  }

  /** classify: whether a read may be cached, for how long and under which tags. */
  function Classify(c: Config, db: string, q: Query): Option<Plan> {
    var table := TableTag(db, c.optionsTable);
    if q.volatile then None
    else if c.autoloadOptions && q.autoload then Some(Plan(c.defaultTTL, [SnapshotTag(db), table], "alloptions"))
    else if c.transients && q.option.Some? then
      if IsTransient(q.option.value) then
        Some(Plan(c.defaultTTL, [OptionTag(db, q.option.value), table], "transients"))
      else None
    else if c.transients && q.names.Some? && q.names.value != [] && AllTransient(q.names.value) then
      Some(Plan(c.defaultTTL, [table] + OptionTags(db, q.names.value), "transients"))
    else
      match RuleFor(c.rules, q.matched)
      case None => None
      case Some(r) => Some(RulePlan(c, db, r))
  }

  function RulePlan(c: Config, db: string, r: Rule): Plan {
    Plan(if r.ttl <= 0 then c.defaultTTL else r.ttl, TableTags(db, r.invalidateOn), "rule:" + r.name)
  }

  /** The tags InvalidateWrite drops; None when it flushes the whole cache. */
  function Dropped(c: Config, db: string, w: Write): Option<seq<Tag>> {
    if w.table == None then None
    else if w.table.value == c.optionsTable && w.names != [] then
      Some((if AllTransient(w.names) then [] else [SnapshotTag(db)]) + OptionTags(db, w.names))
    else Some([TableTag(db, w.table.value)])
  }

  predicate Drops(dropped: Option<seq<Tag>>, tags: seq<Tag>) {
    dropped == None || exists i :: 0 <= i < |tags| && tags[i] in dropped.value
  }

  // --- what statements really read and write ---

  /** A part of the world a statement can depend on: one option, a whole other
      table, or what changes without any write (the time, a random number, the
      session's variables). */
  datatype Cell = OptionCell(db: string, name: string) | TableCell(db: string, table: string) | Unwritten

  function CellTable(c: Config, cell: Cell): string
    requires !cell.Unwritten?
  {
    if cell.OptionCell? then c.optionsTable else cell.table
  }

  // Every cell belongs to one table only.
  predicate IsCell(c: Config, cell: Cell) { cell.TableCell? ==> cell.table != c.optionsTable }

  /** The cells a read depends on, a volatile one on what no write changes too.
      The autoloaded options are the ones that are not transients; a rule names
      every table it reads. */
  predicate Reads(c: Config, db: string, q: Query, cell: Cell) {
    if cell.Unwritten? then q.volatile else ReadsStored(c, db, q, cell)
  }

  predicate ReadsStored(c: Config, db: string, q: Query, cell: Cell)
    requires !cell.Unwritten?
  {
    && IsCell(c, cell) && cell.db == db
    && if c.autoloadOptions && q.autoload then cell.OptionCell? && !IsTransient(cell.name)
       else if c.transients && q.option.Some? then cell.OptionCell? && cell.name == q.option.value
       else if c.transients && q.names.Some? && q.names.value != [] && AllTransient(q.names.value) then
         cell.OptionCell? && cell.name in q.names.value
       else
         match RuleFor(c.rules, q.matched)
         case None => false
         case Some(r) => CellTable(c, cell) in r.invalidateOn
  }

  /** The cells a write may change; every one when its table is not known. */
  predicate Touches(c: Config, db: string, w: Write, cell: Cell) {
    && IsCell(c, cell) && !cell.Unwritten?
    && (w.table.Some? ==> cell.db == db && CellTable(c, cell) == w.table.value)
    && (w.table == Some(c.optionsTable) && w.names != [] ==> cell.OptionCell? && cell.name in w.names)
  }

  ghost predicate Overlap(c: Config, wdb: string, w: Write, db: string, q: Query) {
    exists cell :: Touches(c, wdb, w, cell) && Reads(c, db, q, cell)
  }

  /** The one blind spot: a rule that lists the options table, and a write to
      options it can name. */
  predicate Blind(c: Config, w: Write, q: Query) {
    && w.table == Some(c.optionsTable) && w.names != []
    && !(c.autoloadOptions && q.autoload) && !(c.transients && q.option.Some?)
    && !(c.transients && q.names.Some? && q.names.value != [] && AllTransient(q.names.value))
    && var r := RuleFor(c.rules, q.matched); r.Some? && c.optionsTable in r.value.invalidateOn
  }

  // What one of the patterns, or a rule, says may be cached.
  predicate Wanted(c: Config, q: Query) {
    || (c.autoloadOptions && q.autoload)
    || (c.transients && q.option.Some? && IsTransient(q.option.value))
    || (!(c.transients && q.option.Some?)
        && ((c.transients && q.names.Some? && q.names.value != [] && AllTransient(q.names.value))
            || exists i :: 0 <= i < |c.rules| && c.rules[i].name in q.matched))
  }

  /** A read is cached exactly when a pattern or a rule wants it and its answer
      depends on nothing but what writes change; and then for a time to live of
      its rule, or the default one. An option read by itself that is no transient
      is left alone, whatever the rules say. */
  lemma CachedWhen(c: Config, db: string, q: Query)
    ensures Classify(c, db, q).Some? <==> Wanted(c, q) && forall cell :: Reads(c, db, q, cell) ==> !cell.Unwritten?
    ensures Classify(c, db, q).Some? ==>
              var ttl := Classify(c, db, q).value.ttl;
              ttl == c.defaultTTL || exists i :: 0 <= i < |c.rules| && c.rules[i].ttl == ttl > 0
  {
    assert Reads(c, db, q, Unwritten) <==> q.volatile;
    RuleExists(c.rules, q.matched);
  }

  lemma {:induction false} RuleExists(rules: seq<Rule>, matched: set<string>)
    ensures RuleFor(rules, matched).Some? <==> exists i :: 0 <= i < |rules| && rules[i].name in matched
    ensures RuleFor(rules, matched).Some? ==> RuleFor(rules, matched).value in rules
  {
    if rules != [] {
      RuleExists(rules[1..], matched);
      assert rules == [rules[0]] + rules[1..];
    }
  }

  /** A write drops exactly the reads it can affect, except in the blind spot. */
  lemma DropsExactly(c: Config, wdb: string, w: Write, db: string, q: Query)
    requires Classify(c, db, q).Some? && w.table.Some?
    ensures Drops(Dropped(c, wdb, w), Classify(c, db, q).value.tags) <==> Overlap(c, wdb, w, db, q) && !Blind(c, w, q)
  {
    var dropped, tags := Dropped(c, wdb, w).value, Classify(c, db, q).value.tags;
    if cell: Cell :| Touches(c, wdb, w, cell) && Reads(c, db, q, cell) {
      if !Blind(c, w, q) { OverlapDrops(c, w, db, q, cell); }
    }
    if i :| 0 <= i < |tags| && tags[i] in dropped {
      var cell := DropOverlaps(c, wdb, w, db, q, tags[i]);
    }
  }

  lemma OverlapDrops(c: Config, w: Write, db: string, q: Query, cell: Cell)
    requires Classify(c, db, q).Some? && w.table.Some? && !Blind(c, w, q)
    requires Touches(c, db, w, cell) && Reads(c, db, q, cell)
    ensures Drops(Dropped(c, db, w), Classify(c, db, q).value.tags)
  {
    var dropped, tags := Dropped(c, db, w).value, Classify(c, db, q).value.tags;
    var table := TableTag(db, w.table.value);
    var named := w.table.value == c.optionsTable && w.names != [];
    if named {
      var k :| 0 <= k < |w.names| && w.names[k] == cell.name;
      assert OptionTags(db, w.names)[k] == OptionTag(db, cell.name);
      assert OptionTag(db, cell.name) in dropped;
    } else {
      assert dropped == [table];
    }
    if c.autoloadOptions && q.autoload {
      assert tags[0] == SnapshotTag(db) && tags[1] == TableTag(db, c.optionsTable);
    } else if c.transients && q.option.Some? {
      assert tags[0] == OptionTag(db, cell.name) && tags[1] == TableTag(db, c.optionsTable);
    } else if c.transients && q.names.Some? && q.names.value != [] && AllTransient(q.names.value) {
      var k :| 0 <= k < |q.names.value| && q.names.value[k] == cell.name;
      assert tags[0] == TableTag(db, c.optionsTable) && tags[k + 1] == OptionTag(db, cell.name);
    } else {
      var r := RuleFor(c.rules, q.matched).value;
      var k :| 0 <= k < |r.invalidateOn| && r.invalidateOn[k] == CellTable(c, cell);
      assert tags[k] == table;
    }
  }

  // A cell that shows why a tag both statements share was worth dropping.
  lemma DropOverlaps(c: Config, wdb: string, w: Write, db: string, q: Query, tag: Tag) returns (cell: Cell)
    requires Classify(c, db, q).Some? && w.table.Some?
    requires tag in Classify(c, db, q).value.tags && tag in Dropped(c, wdb, w).value
    ensures Touches(c, wdb, w, cell) && Reads(c, db, q, cell) && !Blind(c, w, q)
  {
    var named := w.table.value == c.optionsTable && w.names != [];
    if named {
      cell := OptionCell(db, if tag.OptionTag? then tag.name else Persistent(w.names));
    } else if w.table.value != c.optionsTable {
      cell := TableCell(db, w.table.value);
    } else if c.autoloadOptions && q.autoload {
      cell := OptionCell(db, Persistent([]));
    } else if c.transients && q.option.Some? {
      cell := OptionCell(db, q.option.value);
    } else if c.transients && q.names.Some? && q.names.value != [] && AllTransient(q.names.value) {
      cell := OptionCell(db, q.names.value[0]);
    } else {
      cell := OptionCell(db, "");
    }
  }

  // A name among these that is not a transient, or any such name.
  function Persistent(names: seq<string>): (name: string)
    ensures !IsTransient(name)
    ensures !AllTransient(names) ==> name in names
  {
    if names == [] then ""
    else if !IsTransient(names[0]) then names[0]
    else
      assert !AllTransient(names) ==> !AllTransient(names[1..]) by {
        assert forall i :: 1 <= i < |names| ==> names[1..][i - 1] == names[i];
      }
      var name := Persistent(names[1..]);
      name
  }

  /** Invalidating under the database current at COMMIT, as endTx does, covers
      a write exactly when that is the database written to, or the write
      flushes everything, or it affects nothing. */
  lemma Rebased(c: Config, was: string, now: string, w: Write, q: Query)
    requires Classify(c, was, q).Some?
    ensures var tags := Classify(c, was, q).value.tags;
            (Drops(Dropped(c, was, w), tags) ==> Drops(Dropped(c, now, w), tags))
            <==> now == was || w.table == None || !Drops(Dropped(c, was, w), tags)
  {
    if w.table.Some? { DropsExactly(c, now, w, was, q); }
  }

  // --- the loops ---

  /** writeHitsAutoload. */
  method WriteHitsAutoload(names: seq<string>) returns (hit: bool)
    ensures hit <==> names == [] || !AllTransient(names)
  {
    if |names| == 0 { return true; }
    for i := 0 to |names|
      invariant forall k :: 0 <= k < i ==> IsTransient(names[k])
    {
      if !IsTransient(names[i]) { return true; }
    }
    return false;
  }

  method MatchRules(c: Config, db: string, q: Query) returns (plan: Option<Plan>)
    ensures plan == match RuleFor(c.rules, q.matched)
                    case None => None
                    case Some(r) => Some(RulePlan(c, db, r))
  {
    for i := 0 to |c.rules|
      invariant RuleFor(c.rules, q.matched) == RuleFor(c.rules[i..], q.matched)
    {
      var r := c.rules[i];
      assert c.rules[i..][0] == r && c.rules[i..][1..] == c.rules[i + 1..];
      if r.name !in q.matched { continue; }
      var ttl := r.ttl;
      if ttl <= 0 { ttl := c.defaultTTL; }
      var tags: seq<Tag> := [];
      for k := 0 to |r.invalidateOn|
        invariant tags == TableTags(db, r.invalidateOn)[..k]
      {
        tags := tags + [TableTag(db, r.invalidateOn[k])];
      }
      assert tags == TableTags(db, r.invalidateOn);
      return Some(Plan(ttl, tags, "rule:" + r.name));
    }
    return None;
  }

  /** classify, as the source runs it. */
  method ClassifyRead(c: Config, db: string, q: Query) returns (plan: Option<Plan>)
    ensures plan == Classify(c, db, q)
  {
    if q.volatile { return None; }
    if c.autoloadOptions && q.autoload {
      return Some(Plan(c.defaultTTL, [SnapshotTag(db), TableTag(db, c.optionsTable)], "alloptions"));
    }
    if c.transients {
      if q.option.Some? {
        if IsTransient(q.option.value) {
          return Some(Plan(c.defaultTTL, [OptionTag(db, q.option.value), TableTag(db, c.optionsTable)], "transients"));
        }
        return None;
      }
      if q.names.Some? && |q.names.value| > 0 {
        var tags, allTransient := [TableTag(db, c.optionsTable)], true;
        for i := 0 to |q.names.value|
          invariant allTransient && forall k :: 0 <= k < i ==> IsTransient(q.names.value[k])
          invariant tags == [TableTag(db, c.optionsTable)] + OptionTags(db, q.names.value)[..i]
        {
          if !IsTransient(q.names.value[i]) {
            allTransient := false;
            break;
          }
          tags := tags + [OptionTag(db, q.names.value[i])];
        }
        assert q.names.value[..|q.names.value|] == q.names.value;
        assert allTransient ==> tags == [TableTag(db, c.optionsTable)] + OptionTags(db, q.names.value);
        if allTransient { return Some(Plan(c.defaultTTL, tags, "transients")); }
      }
    }
    plan := MatchRules(c, db, q);
  }
}
