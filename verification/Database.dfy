/**
  Whole runs: tables, the connections that pipelines opened to them, and source changes pushed one
  after the other (ivm/source.go), down to what a client of a pipeline has in the end.
 */
module Database {
  import opened Values
  import opened Views
  import opened JoinUtils
  import opened FilterChain
  import opened SourceRules
  import opened Pipeline

  /** A connection that some pipeline opened to a table. */
  datatype Feed = Feed(table: string, conn: Connection)

  type Tables = map<string, seq<Row>>
  type Keys = map<string, Key>

  /** Every table is sorted by its key, and every connection is to a table and orders its rows completely. */
  ghost predicate Sane(keys: Keys, feeds: seq<Feed>, db: Tables) {
    && (forall t | t in db :: t in keys && Table(keys[t], db[t]))
    && (forall i | 0 <= i < |feeds| :: feeds[i].table in db && Completes(feeds[i].conn.sort, keys[feeds[i].table]))
  }

  function Schemas(feeds: seq<Feed>): (S: seq<Schema>)
    ensures |S| == |feeds|
  {
    seq(|feeds|, i requires 0 <= i < |feeds| => ConnSchema(feeds[i].conn))
  }

  function Splits(feeds: seq<Feed>): (split: seq<set<string>>)
    ensures |split| == |feeds|
  {
    seq(|feeds|, i requires 0 <= i < |feeds| => feeds[i].conn.splitEditKeys)
  }

  /** What the connections show while a push to `table` has come to connection `told`. */
  function WorldAt(feeds: seq<Feed>, db: Tables, table: string, after: seq<Row>, told: nat): (T: World)
    requires forall i | 0 <= i < |feeds| :: feeds[i].table in db
    ensures |T| == |feeds|
  {
    seq(|feeds|, i requires 0 <= i < |feeds| =>
      ConnView(feeds[i].conn, if feeds[i].table == table && i < told then after else db[feeds[i].table]))
  }

  function WorldOf(feeds: seq<Feed>, db: Tables): (T: World)
    requires forall i | 0 <= i < |feeds| :: feeds[i].table in db
    ensures |T| == |feeds|
  {
    seq(|feeds|, i requires 0 <= i < |feeds| => ConnView(feeds[i].conn, db[feeds[i].table]))
  }

  /** What the source's own account of a push says its connections see is what the pipelines' worlds say. */
  lemma SeenIsWorld(feeds: seq<Feed>, conns: seq<Connection>, db: Tables, table: string, after: seq<Row>, told: nat)
    requires table in db && |conns| == |feeds|
    requires forall i | 0 <= i < |feeds| :: feeds[i] == Feed(table, conns[i]) && conns[i].wired
    ensures SeenBy(conns, db[table], after, told) == WorldAt(feeds, db, table, after, told)
  {
  }

  // ----- one push

  /** What comes out of the pipeline when connection `i` is told. */
  ghost function Told(p: Pipe, feeds: seq<Feed>, db: Tables, table: string, after: seq<Row>, ch: Change,
                      i: nat): seq<Change>
    requires Closed(p, |feeds|) && i < |feeds| && forall i | 0 <= i < |feeds| :: feeds[i].table in db
  {
    if feeds[i].table != table || i !in Conns(p) then []
    else match SourceGate(feeds[i].conn.filter, ch)
      case None => []
      case Some(c) => Emit(p, Schemas(feeds), WorldAt(feeds, db, table, after, i), i, c)
  }

  /** What comes out of the pipeline while the first `n` connections are told. */
  ghost function PushEmits(p: Pipe, feeds: seq<Feed>, db: Tables, table: string, after: seq<Row>, ch: Change,
                           n: nat): seq<Change>
    requires Closed(p, |feeds|) && n <= |feeds| && forall i | 0 <= i < |feeds| :: feeds[i].table in db
  {
    if n == 0 then []
    else PushEmits(p, feeds, db, table, after, ch, n - 1) + Told(p, feeds, db, table, after, ch, n - 1)
  }

  /** No connection of the table asks to have this change split. */
  ghost predicate Unsplit(feeds: seq<Feed>, table: string, sc: SourceChange) {
    sc.EditRow? ==> forall i | 0 <= i < |feeds| && feeds[i].table == table ::
      !SplitsOn(feeds[i].conn.splitEditKeys, sc.row, sc.oldRow)
  }

  lemma WorldIsSound(keys: Keys, feeds: seq<Feed>, db: Tables, table: string, after: seq<Row>, told: nat)
    requires Sane(keys, feeds, db) && table in db && Table(keys[table], after)
    ensures Sound(Schemas(feeds), WorldAt(feeds, db, table, after, told))
  {
    var T := WorldAt(feeds, db, table, after, told);
    forall i | 0 <= i < |feeds| ensures Sorted(Schemas(feeds)[i].cmp, T[i]) {
      var rows := if feeds[i].table == table && i < told then after else db[feeds[i].table];
      ViewSorted(keys[feeds[i].table], feeds[i].conn, rows);
    }
  }

  lemma ViewSorted(primaryKey: Key, conn: Connection, rows: seq<Row>)
    requires Table(primaryKey, rows) && Completes(conn.sort, primaryKey)
    ensures Sorted(MakeComparator(conn.sort), ConnView(conn, rows))
  {
    var cmp := MakeComparator(conn.sort);
    ComparatorIsTotalOrder(conn.sort);
    TableApart(primaryKey, rows, conn.sort);
    SortFacts(cmp, Leaves(rows));
    FilteredFacts(cmp, SortBy(cmp, Leaves(rows)), Passes(conn.filter));
  }

  /** What a connection hands on of a source change is good input for the tree. */
  lemma GateIsGood(split: set<string>, filter: Option<Row -> bool>, sc: SourceChange)
    requires sc.EditRow? ==> !SplitsOn(split, sc.row, sc.oldRow)
    ensures SourceGate(filter, ToChange(sc)).Some? ==> Good({}, split, SourceGate(filter, ToChange(sc)).value)
  {
  }

  /** Telling one more connection carries what the pipeline shows one connection further. */
  lemma ToldCarries(p: Pipe, keys: Keys, feeds: seq<Feed>, db: Tables, table: string, sc: SourceChange, i: nat)
    requires Sane(keys, feeds, db) && Wired(p, Schemas(feeds), Splits(feeds)) && i < |feeds|
    requires table in db && Fitting(keys[table], db[table], sc) && Unsplit(feeds, table, sc)
    ensures Closed(p, |feeds|)
    ensures var S, after := Schemas(feeds), Written(keys[table], db[table], sc);
            Carries(PipeSchema(p, S), View(p, S, WorldAt(feeds, db, table, after, i)),
                    Told(p, feeds, db, table, after, ToChange(sc), i),
                    View(p, S, WorldAt(feeds, db, table, after, i + 1)))
  {
    hide Carries, Emit, View, Wired, Fitting, Written, ConnView, SplitsOn, ToChange, WorldAt, Sound, Good, Table,
         Completes, SourceGate, Becomes;
    var S, after := Schemas(feeds), Written(keys[table], db[table], sc);
    var T, U := WorldAt(feeds, db, table, after, i), WorldAt(feeds, db, table, after, i + 1);
    WiredShape(p, S, Splits(feeds));
    if feeds[i].table != table {
      WorldNext(feeds, db, table, after, i);
      CarriesNone(PipeSchema(p, S), View(p, S, T));
    } else {
      WrittenBecomes(keys[table], db[table], sc);
      WorldIsSound(keys, feeds, db, table, after, i);
      var conn := feeds[i].conn;
      ConnCarries(keys[table], db[table], sc, conn);
      GateIsGood(conn.splitEditKeys, conn.filter, sc);
      WorldNext(feeds, db, table, after, i);
      HandedOn(p, S, Splits(feeds), T, i, SourceGate(conn.filter, ToChange(sc)), ConnView(conn, after));
    }
  }

  lemma WorldNext(feeds: seq<Feed>, db: Tables, table: string, after: seq<Row>, i: nat)
    requires i < |feeds| && forall i | 0 <= i < |feeds| :: feeds[i].table in db
    ensures var T, U := WorldAt(feeds, db, table, after, i), WorldAt(feeds, db, table, after, i + 1);
            && (feeds[i].table != table ==> U == T)
            && (feeds[i].table == table ==>
                T[i] == ConnView(feeds[i].conn, db[table]) && U == T[i := ConnView(feeds[i].conn, after)])
  {
  }

  /** The tree, told by connection `i` of nothing or of one change. */
  lemma HandedOn(p: Pipe, S: seq<Schema>, split: seq<set<string>>, T: World, i: nat, out: Option<Change>,
                 list: seq<Node>)
    requires |S| == |split| && Wired(p, S, split) && Sound(S, T) && i < |S|
    requires Carries(S[i], T[i], Emitted(out), list) && (out.Some? ==> Good({}, split[i], out.value))
    ensures Closed(p, |S|)
    ensures Carries(PipeSchema(p, S), View(p, S, T), if i !in Conns(p) || out.None? then []
                    else Emit(p, S, T, i, out.value), View(p, S, T[i := list]))
  {
    hide Emit, View, Wired, Legal, Apply, Good;
    WiredShape(p, S, split);
    if i !in Conns(p) {
      OtherConnection(p, S, T, i, list);
    } else if out.None? {
      assert T[i := list] == T;
    } else {
      assert Emitted(out)[1..] == [];
      PipeCarries(p, S, split, T, i, out.value);
    }
  }

  lemma {:induction false} PushCarries(p: Pipe, keys: Keys, feeds: seq<Feed>, db: Tables, table: string,
                                       sc: SourceChange, n: nat)
    requires Sane(keys, feeds, db) && Wired(p, Schemas(feeds), Splits(feeds)) && n <= |feeds|
    requires table in db && Fitting(keys[table], db[table], sc) && Unsplit(feeds, table, sc)
    ensures Closed(p, |feeds|)
    ensures var S, after := Schemas(feeds), Written(keys[table], db[table], sc);
            Carries(PipeSchema(p, S), View(p, S, WorldAt(feeds, db, table, after, 0)),
                    PushEmits(p, feeds, db, table, after, ToChange(sc), n),
                    View(p, S, WorldAt(feeds, db, table, after, n)))
  {
    hide Carries, Emit, View, Wired, Fitting, Written, ConnView, Unsplit, ToChange, Told, Sane;
    TableIs(keys, feeds, db, table);
    TablesThere(keys, feeds, db);
    var S, after := Schemas(feeds), Written(keys[table], db[table], sc);
    WiredShape(p, S, Splits(feeds));
    if n == 0 {
      CarriesNone(PipeSchema(p, S), View(p, S, WorldAt(feeds, db, table, after, 0)));
    } else {
      PushCarries(p, keys, feeds, db, table, sc, n - 1);
      ToldCarries(p, keys, feeds, db, table, sc, n - 1);
      CarriesConcat(PipeSchema(p, S), View(p, S, WorldAt(feeds, db, table, after, 0)),
                    PushEmits(p, feeds, db, table, after, ToChange(sc), n - 1),
                    View(p, S, WorldAt(feeds, db, table, after, n - 1)),
                      Told(p, feeds, db, table, after, ToChange(sc), n - 1),
                    View(p, S, WorldAt(feeds, db, table, after, n)));
    }
  }

  lemma TablesThere(keys: Keys, feeds: seq<Feed>, db: Tables)
    requires Sane(keys, feeds, db)
    ensures forall i | 0 <= i < |feeds| :: feeds[i].table in db && feeds[i].table in keys
  {
  }

  // ----- a source change, split or not

  /** The connections of one table, in the order in which they are told. */
  function ConnsOf(feeds: seq<Feed>, table: string): seq<Connection> {
    if feeds == [] then []
    else if feeds[0].table == table then [feeds[0].conn] + ConnsOf(feeds[1..], table)
    else ConnsOf(feeds[1..], table)
  }

  /** The changes that a source pushes for one change it is given: an edit of a column that some
      connection asks to have split is a remove and an add. */
  function PushedAs(feeds: seq<Feed>, table: string, sc: SourceChange): seq<SourceChange> {
    if sc.EditRow? && ShouldSplit(ConnsOf(feeds, table), sc.row, sc.oldRow)
      then [RemoveRow(sc.oldRow), AddRow(sc.row)] else [sc]
  }

  lemma {:induction false} ConnsOfTable(feeds: seq<Feed>, table: string)
    ensures forall i | 0 <= i < |feeds| && feeds[i].table == table :: feeds[i].conn in ConnsOf(feeds, table)
  {
    if feeds != [] {
      ConnsOfTable(feeds[1..], table);
      assert forall i | 0 < i < |feeds| :: feeds[i] == feeds[1..][i - 1];
    }
  }

  lemma PushedUnsplit(feeds: seq<Feed>, table: string, sc: SourceChange)
    ensures forall c | c in PushedAs(feeds, table, sc) :: Unsplit(feeds, table, c)
  {
    ConnsOfTable(feeds, table);
    var conns := ConnsOf(feeds, table);
    if sc.EditRow? && !ShouldSplit(conns, sc.row, sc.oldRow) {
      forall i | 0 <= i < |feeds| && feeds[i].table == table
        ensures !SplitsOn(feeds[i].conn.splitEditKeys, sc.row, sc.oldRow) {
        var j :| 0 <= j < |conns| && conns[j] == feeds[i].conn;
      }
    }
  }

  ghost function Write(keys: Keys, db: Tables, table: string, sc: SourceChange): Tables
    requires table in db && table in keys
  {
    db[table := Written(keys[table], db[table], sc)]
  }

  /** What one source pushes and writes, change after change. */
  ghost function Emissions(p: Pipe, keys: Keys, feeds: seq<Feed>, db: Tables, table: string,
                           scs: seq<SourceChange>): seq<Change>
    requires Closed(p, |feeds|) && table in db && table in keys && forall i | 0 <= i < |feeds| :: feeds[i].table in db
    decreases |scs|
  {
    if scs == [] then []
    else
      var after := Written(keys[table], db[table], scs[0]);
      PushEmits(p, feeds, db, table, after, ToChange(scs[0]), |feeds|)
        + Emissions(p, keys, feeds, Write(keys, db, table, scs[0]), table, scs[1..])
  }

  lemma WriteStaysSane(keys: Keys, feeds: seq<Feed>, db: Tables, table: string, sc: SourceChange)
    requires Sane(keys, feeds, db) && table in db && Fitting(keys[table], db[table], sc)
    ensures Sane(keys, feeds, Write(keys, db, table, sc))
    ensures WorldOf(feeds, db) == WorldAt(feeds, db, table, Written(keys[table], db[table], sc), 0)
    ensures WorldOf(feeds, Write(keys, db, table, sc))
            == WorldAt(feeds, db, table, Written(keys[table], db[table], sc), |feeds|)
  {
    hide Written, Fitting, ConnView, Completes, Becomes;
    WrittenBecomes(keys[table], db[table], sc);
  }

  /** One pushed and written change. */
  lemma WriteCarries(p: Pipe, keys: Keys, feeds: seq<Feed>, db: Tables, table: string, sc: SourceChange)
    requires Sane(keys, feeds, db) && Wired(p, Schemas(feeds), Splits(feeds))
    requires table in db && Fitting(keys[table], db[table], sc) && Unsplit(feeds, table, sc)
    ensures Closed(p, |feeds|) && Sane(keys, feeds, Write(keys, db, table, sc))
    ensures var S, after := Schemas(feeds), Written(keys[table], db[table], sc);
            Carries(PipeSchema(p, S), View(p, S, WorldOf(feeds, db)),
                    PushEmits(p, feeds, db, table, after, ToChange(sc), |feeds|),
                    View(p, S, WorldOf(feeds, Write(keys, db, table, sc))))
  {
    hide Carries, View, Wired, Fitting, Written, ConnView, Unsplit, PushEmits;
    PushCarries(p, keys, feeds, db, table, sc, |feeds|);
    WriteStaysSane(keys, feeds, db, table, sc);
  }

  /** A source change as the client of a pipeline sees it, split or not. */
  lemma SourcePushCarries(p: Pipe, keys: Keys, feeds: seq<Feed>, db: Tables, table: string, sc: SourceChange)
    requires Sane(keys, feeds, db) && Wired(p, Schemas(feeds), Splits(feeds))
    requires table in db && Fitting(keys[table], db[table], sc)
    ensures Closed(p, |feeds|) && Sane(keys, feeds, Write(keys, db, table, sc))
    ensures var S := Schemas(feeds);
            Carries(PipeSchema(p, S), View(p, S, WorldOf(feeds, db)),
                    Emissions(p, keys, feeds, db, table, PushedAs(feeds, table, sc)),
                    View(p, S, WorldOf(feeds, Write(keys, db, table, sc))))
  {
    hide Carries, View, Wired, Fitting, Written, ConnView, Unsplit, PushEmits, Sane, WorldOf;
    var S, scs := Schemas(feeds), PushedAs(feeds, table, sc);
    PushedUnsplit(feeds, table, sc);
    TablesThere(keys, feeds, db);
    WiredShape(p, S, Splits(feeds));
    TableIs(keys, feeds, db, table);
    if |scs| == 1 {
      assert sc in scs && scs == [sc] && scs[1..] == [];
      WriteCarries(p, keys, feeds, db, table, sc);
      OnlyPush(p, keys, feeds, db, table, sc);
    } else {
      var r, a := RemoveRow(sc.oldRow), AddRow(sc.row);
      assert r in scs && a in scs && scs == [r, a];
      SplitFits(keys[table], db[table], sc.row, sc.oldRow);
      var mid := Write(keys, db, table, r);
      WriteCarries(p, keys, feeds, db, table, r);
      WriteCarries(p, keys, feeds, mid, table, a);
      TwoPushes(p, keys, feeds, db, table, r, a);
      WriteTwice(db, table, Written(keys[table], db[table], r), Written(keys[table], db[table], sc));
      CarriesConcat(PipeSchema(p, S), View(p, S, WorldOf(feeds, db)),
                    PushEmits(p, feeds, db, table, mid[table], ToChange(r), |feeds|),
                    View(p, S, WorldOf(feeds, mid)),
                      PushEmits(p, feeds, mid, table, Written(keys[table], mid[table], a), ToChange(a), |feeds|),
                    View(p, S, WorldOf(feeds, Write(keys, mid, table, a))));
    }
  }

  lemma WriteTwice(db: Tables, table: string, a: seq<Row>, b: seq<Row>)
    ensures db[table := a][table := b] == db[table := b]
  {
  }

  lemma TableIs(keys: Keys, feeds: seq<Feed>, db: Tables, table: string)
    requires Sane(keys, feeds, db) && table in db
    ensures table in keys && Table(keys[table], db[table])
  {
  }

  lemma OnlyPush(p: Pipe, keys: Keys, feeds: seq<Feed>, db: Tables, table: string, sc: SourceChange)
    requires Closed(p, |feeds|) && table in db && table in keys && forall i | 0 <= i < |feeds| :: feeds[i].table in db
    ensures Emissions(p, keys, feeds, db, table, [sc]) ==
            PushEmits(p, feeds, db, table, Written(keys[table], db[table], sc), ToChange(sc), |feeds|)
  {
    hide Written, PushEmits, ToChange, Closed;
    assert [sc][1..] == [];
  }

  lemma TwoPushes(p: Pipe, keys: Keys, feeds: seq<Feed>, db: Tables, table: string, a: SourceChange, b: SourceChange)
    requires Closed(p, |feeds|) && table in db && table in keys && forall i | 0 <= i < |feeds| :: feeds[i].table in db
    ensures var mid := Write(keys, db, table, a);
            Emissions(p, keys, feeds, db, table, [a, b]) ==
            PushEmits(p, feeds, db, table, mid[table], ToChange(a), |feeds|)
            + PushEmits(p, feeds, mid, table, Written(keys[table], mid[table], b), ToChange(b), |feeds|)
  {
    assert [a, b][1..] == [b];
    OnlyPush(p, keys, feeds, Write(keys, db, table, a), table, b);
  }

  // ----- whole runs

  datatype Event = Event(table: string, change: SourceChange)

  /** Every change of the run fits the tables that it meets. */
  ghost predicate Valid(keys: Keys, db: Tables, run: seq<Event>)
    decreases |run|
  {
    run == [] || (run[0].table in db && run[0].table in keys
                  && Fitting(keys[run[0].table], db[run[0].table], run[0].change)
                  && Valid(keys, Write(keys, db, run[0].table, run[0].change), run[1..]))
  }

  ghost function TablesAfter(keys: Keys, db: Tables, run: seq<Event>): Tables
    requires Valid(keys, db, run)
    decreases |run|
  {
    if run == [] then db else TablesAfter(keys, Write(keys, db, run[0].table, run[0].change), run[1..])
  }

  ghost function RunEmits(p: Pipe, keys: Keys, feeds: seq<Feed>, db: Tables, run: seq<Event>): seq<Change>
    requires Closed(p, |feeds|) && Valid(keys, db, run) && forall i | 0 <= i < |feeds| :: feeds[i].table in db
    decreases |run|
  {
    if run == [] then []
    else Emissions(p, keys, feeds, db, run[0].table, PushedAs(feeds, run[0].table, run[0].change))
         + RunEmits(p, keys, feeds, Write(keys, db, run[0].table, run[0].change), run[1..])
  }

  /** End to end: after any finite run of source changes that fit their tables, the client that folded
      everything the pipeline emitted into its first view has exactly what a fresh fetch shows. */
  lemma {:induction false} RunCarries(p: Pipe, keys: Keys, feeds: seq<Feed>, db: Tables, run: seq<Event>)
    requires Sane(keys, feeds, db) && Wired(p, Schemas(feeds), Splits(feeds)) && Valid(keys, db, run)
    ensures Closed(p, |feeds|) && Sane(keys, feeds, TablesAfter(keys, db, run))
    ensures var S := Schemas(feeds);
            Carries(PipeSchema(p, S), View(p, S, WorldOf(feeds, db)), RunEmits(p, keys, feeds, db, run),
                    View(p, S, WorldOf(feeds, TablesAfter(keys, db, run))))
    decreases |run|
  {
    hide Carries, View, Wired, Fitting, Written, ConnView, Emissions, Sane, WorldOf, Schemas, Splits, PushedAs;
    var S := Schemas(feeds);
    WiredShape(p, S, Splits(feeds));
    TablesThere(keys, feeds, db);
    if run == [] {
      CarriesNone(PipeSchema(p, S), View(p, S, WorldOf(feeds, db)));
    } else {
      var e := run[0];
      var next := Write(keys, db, e.table, e.change);
      SourcePushCarries(p, keys, feeds, db, e.table, e.change);
      RunCarries(p, keys, feeds, next, run[1..]);
      TablesThere(keys, feeds, next);
      TablesThere(keys, feeds, TablesAfter(keys, next, run[1..]));
      CarriesConcat(PipeSchema(p, S), View(p, S, WorldOf(feeds, db)),
                    Emissions(p, keys, feeds, db, e.table, PushedAs(feeds, e.table, e.change)),
                    View(p, S, WorldOf(feeds, next)), RunEmits(p, keys, feeds, next, run[1..]),
                    View(p, S, WorldOf(feeds, TablesAfter(keys, db, run))));
    }
  }
}
