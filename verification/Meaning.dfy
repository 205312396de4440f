/**
  What a query means on a set of tables, said without connections, filter pushdown or operators, and
  that the built pipeline shows exactly that, at the start and after every run of changes.
 */
module Meaning {
  import opened Values
  import opened Seqs
  import opened Views
  import opened JoinUtils
  import opened Ast
  import opened FilterChain
  import opened ChainPush
  import opened Fetching
  import opened SourceRules
  import opened TakeUnion
  import opened JoinSpec
  import opened Pipeline
  import opened Database
  import opened Builder
  import opened BuilderWiring

  ghost predicate Covers(keys: Keys, db: Tables) {
    forall t | t in keys :: t in db
  }

  function OrderOf(ast: AST, keys: Keys): Comparator
    requires ast.table in keys
  {
    MakeComparator(CompleteOrder(keys[ast.table], ast.orderBy))
  }

  // ----- the meaning of a query

  /** The rows of the table in order, from the cursor on; with their EXISTS children; those of which the
      whole condition is true; of each partition the first `limit`; with their related children. */
  ghost function QueryMeans(ast: AST, keys: Keys, db: Tables, partitionKey: Key): seq<Node>
    requires Buildable(ast, keys) && Covers(keys, db)
    decreases SizeOf(ast), 2, 0
  {
    ChildrenFit(ast);
    AttachAll(SizeOf(ast), Dedupe(ast.related), keys, db, RowsMean(ast, keys, db, partitionKey))
  }

  ghost function RowsMean(ast: AST, keys: Keys, db: Tables, partitionKey: Key): seq<Node>
    requires Buildable(ast, keys) && Covers(keys, db)
    decreases SizeOf(ast), 1, 0
  {
    ChildrenFit(ast);
    var rows := FromCursor(ast, keys, SortBy(OrderOf(ast, keys), Leaves(db[ast.table])));
    var joined := AttachAll(SizeOf(ast), ExistsChildren(Subqueries(Renamed(ast))), keys, db, rows);
    FirstOf(ast, partitionKey, WhereTrue(Renamed(ast), joined))
  }

  function FromCursor(ast: AST, keys: Keys, s: seq<Node>): seq<Node>
    requires ast.table in keys
  {
    if ast.start.Some? then Filtered(s,
                                     OfRow(Present(OrderOf(ast, keys), ast.start.value.row,
                                                   ast.start.value.exclusive))) else s
  }

  function WhereTrue(where: Option<Condition>, s: seq<Node>): seq<Node> {
    if where.Some? then Filtered(s, Satisfies(where.value)) else s
  }

  ghost function FirstOf(ast: AST, partitionKey: Key, s: seq<Node>): seq<Node> {
    if ast.limit.Some? then Shown(ast.limit.value, partitionKey, Askable(), s) else s
  }

  ghost function AttachAll(bound: nat, list: seq<CorrelatedSubquery>, keys: Keys, db: Tables,
                           parents: seq<Node>): seq<Node>
    requires FitsIn(list, bound) && ChildrenBuildable(bound, list, keys) && Covers(keys, db)
    decreases bound, 0, |list|
  {
    if list == [] then parents
    else
      AttachAll(bound, list[1..], keys, db,
                Joined(CorrelationOf(list[0]), parents, QueryMeans(list[0].subquery, keys, db, list[0].childField)))
  }

  // ----- filtering rows before or after the children are attached

  lemma JoinedFiltered(j: Correlation, s: seq<Node>, children: seq<Node>, keep: Node -> bool)
    requires |j.parentKey| == |j.childKey| && forall a: Node, b: Node | a.row == b.row :: keep(a) == keep(b)
    ensures Joined(j, Filtered(s, keep), children) == Filtered(Joined(j, s, children), keep)
  {
    var f := Attaching(j, children);
    forall n: Node ensures f(n).row == n.row && keep(f(n)) == keep(n) {
      assert f(n) == Attach(j, children, n);
    }
    FilteredMap(s, f, keep);
    assert MapNodes(s, f) == Joined(j, s, children);
    assert MapNodes(Filtered(s, keep), f) == Joined(j, Filtered(s, keep), children);
  }

  function Attaching(j: Correlation, children: seq<Node>): Node -> Node
    requires |j.parentKey| == |j.childKey|
  {
    (p: Node) => Attach(j, children, p)
  }

  lemma {:induction false} AttachAllFiltered(bound: nat, list: seq<CorrelatedSubquery>, keys: Keys, db: Tables,
                                             s: seq<Node>, keep: Node -> bool)
    requires FitsIn(list, bound) && ChildrenBuildable(bound, list, keys) && Covers(keys, db)
    requires forall a: Node, b: Node | a.row == b.row :: keep(a) == keep(b)
    ensures AttachAll(bound, list, keys, db, Filtered(s, keep)) == Filtered(AttachAll(bound, list, keys, db, s), keep)
    decreases |list|
  {
    if list != [] {
      var j, children := CorrelationOf(list[0]), QueryMeans(list[0].subquery, keys, db, list[0].childField);
      JoinedFiltered(j, s, children, keep);
      AttachAllFiltered(bound, list[1..], keys, db, Joined(j, s, children), keep);
    }
  }

  /** The connection's filter, and then the operators of the WHERE clause where there are any, keep
      exactly the nodes of which the condition is true. */
  lemma FilterPushdown(where: Option<Condition>, s: seq<Node>)
    ensures var kept := Filtered(s, Passes(SourceFilter(where)));
            (if where.Some? && Subqueries(where) != [] then Filtered(kept, Satisfies(where.value)) else kept)
              == WhereTrue(where, s)
  {
    var pass := Passes(SourceFilter(where));
    if where.None? {
      FilteredAll(s, pass);
    } else {
      var c := where.value;
      GatherFacts(c);
      forall n: Node ensures pass(n) == SourceAccepts(c, n.row) {
      }
      forall n: Node ensures (Sat(c, n) ==> pass(n)) && (!ContainsSubquery(c) ==> pass(n) == Sat(c, n)) {
        StripIsNecessary(c, n);
      }
      if ContainsSubquery(c) {
        FilteredTwice(s, pass, Satisfies(c), Satisfies(c));
      } else {
        FilteredSame(s, pass, Satisfies(c));
      }
    }
  }

  // ----- the built pipeline shows the meaning

  ghost predicate Whole(keys: Keys, grown: seq<Feed>, all: seq<Feed>, db: Tables) {
    grown <= all && Covers(keys, db) && forall i | 0 <= i < |all| :: all[i].table in db
  }

  ghost function Seen(p: Pipe, all: seq<Feed>, db: Tables): seq<Node>
    requires Closed(p, |all|) && forall i | 0 <= i < |all| :: all[i].table in db
  {
    View(p, Schemas(all), WorldOf(all, db))
  }

  lemma WiredCloses(p: Pipe, feeds: seq<Feed>, all: seq<Feed>, low: nat)
    requires WiredIn(p, feeds, low) && feeds <= all
    ensures WiredIn(p, all, low) && Closed(p, |all|)
  {
    WiredInMore(p, feeds, all, low);
    WiredShape(p, Schemas(all), Splits(all));
  }

  lemma {:induction false} JoinAllShows(bound: nat, list: seq<CorrelatedSubquery>, keys: Keys, parent: Pipe,
                                        feeds: seq<Feed>, low: nat, all: seq<Feed>, db: Tables)
    requires FitsIn(list, bound) && ChildrenBuildable(bound, list, keys) && ChildrenSensible(bound, list, keys)
    requires FeedsOk(keys, feeds) && WiredIn(parent, feeds, low) && low <= |feeds| && Root(parent) < |feeds|
    requires NewNames(list, RelNames(parent))
    requires forall q | q in list :: Columns(q.parentField) <= Splits(feeds)[Root(parent)]
    requires Whole(keys, JoinAll(bound, list, keys, parent, feeds).1, all, db)
    ensures var p := JoinAll(bound, list, keys, parent, feeds).0;
            && Closed(p, |all|) && Closed(parent, |all|)
            && Seen(p, all, db) == AttachAll(bound, list, keys, db, Seen(parent, all, db))
            && PipeSchema(p, Schemas(all)).cmp == PipeSchema(parent, Schemas(all)).cmp
    decreases bound, 0, |list|
  {
    hide WiredIn, FeedsOk, ValidKeys, Wired, Completes, Buildable, Sensible, Build, Splits, Schemas, WorldOf, Joined;
    JoinAllIsWired(bound, list, keys, parent, feeds, low);
    var (p, grown) := JoinAll(bound, list, keys, parent, feeds);
    WiredCloses(p, grown, all, low);
    WiredCloses(parent, feeds, all, low);
    if list != [] {
      var q := list[0];
      var j := CorrelationOf(q);
      HeadTail(list);
      BuildIsWired(q.subquery, keys, q.childField, feeds);
      var (child, next) := Build(q.subquery, keys, q.childField, feeds);
      JoinWired(parent, child, j, feeds, next, low);
      JoinAllIsWired(bound, list[1..], keys, JoinOf(parent, child, j), next, low);
      BuildShows(q.subquery, keys, q.childField, feeds, all, db);
      WiredCloses(child, next, all, |feeds|);
      JoinAllShows(bound, list[1..], keys, JoinOf(parent, child, j), next, low, all, db);
    }
  }

  lemma {:induction false} RowsShow(ast: AST, keys: Keys, partitionKey: Key, feeds: seq<Feed>, all: seq<Feed>,
                                    db: Tables)
    requires Buildable(ast, keys) && Sensible(ast, keys) && FeedsOk(keys, feeds)
    requires Whole(keys, BuildRows(ast, keys, partitionKey, feeds).1, all, db)
    ensures var p := BuildRows(ast, keys, partitionKey, feeds).0;
            Closed(p, |all|) && Seen(p, all, db) == RowsMean(ast, keys, db, partitionKey)
    decreases SizeOf(ast), 1, 0
  {
    hide WiredIn, FeedsOk, Wired, Completes, Buildable, Sensible, ChildrenBuildable, ChildrenSensible, JoinAll,
         Renamed, ExistsChildren, Subqueries, NewNames, NamesIn, DistinctNames, AttachAll, Satisfies, Filtered, Seen,
           Splits, Schemas, SourceFilter, Passes, FromCursor, SortBy, FirstOf, Closed, Taken, Checked;
    ChildrenAre(ast, keys);
    var where, k, checks := Renamed(ast), |feeds|, ExistsChildren(Subqueries(Renamed(ast)));
    var conn := Connect(ast, keys[ast.table], partitionKey);
    var f0 := feeds + [Feed(ast.table, conn)];
    SourceWired(ast, keys, partitionKey, feeds);
    if ast.start.Some? { UnaryWired(Input(k), SkipTo(ast.start.value.row, ast.start.value.exclusive), f0, k); }
    WhereNames(where);
    GatheredColumnsCover(Subqueries(where));
    var skipped := Skipped(ast, Input(k));
    JoinAllIsWired(SizeOf(ast), checks, keys, skipped, f0, k);
    JoinAllShows(SizeOf(ast), checks, keys, skipped, f0, k, all, db);
    var joined := JoinAll(SizeOf(ast), checks, keys, skipped, f0).0;
    var rows := SortBy(OrderOf(ast, keys), Leaves(db[ast.table]));
    SourceShows(ast, keys, partitionKey, f0, k, all, db);
    var pass := Passes(SourceFilter(where));
    PassesByRow(SourceFilter(where));
    ChecksShow(ast, partitionKey, joined, all, db);
    AttachAllFiltered(SizeOf(ast), checks, keys, db, FromCursor(ast, keys, rows), pass);
    FilterPushdown(where, AttachAll(SizeOf(ast), checks, keys, db, FromCursor(ast, keys, rows)));
  }

  lemma PassesByRow(filter: Option<Row -> bool>)
    ensures forall a: Node, b: Node | a.row == b.row :: Passes(filter)(a) == Passes(filter)(b)
  {
  }

  /** The source and the cursor show the rows from the cursor on that pass the connection's filter. */
  lemma SourceShows(ast: AST, keys: Keys, partitionKey: Key, f0: seq<Feed>, k: nat, all: seq<Feed>, db: Tables)
    requires ast.table in keys && k < |f0| && f0[k] == Feed(ast.table, Connect(ast, keys[ast.table], partitionKey))
             && Whole(keys, f0, all, db)
    ensures var p := Skipped(ast, Input(k));
            && Closed(p, |all|) && PipeSchema(p, Schemas(all)).cmp == OrderOf(ast, keys)
            && Seen(p, all, db) == Filtered(FromCursor(ast, keys, SortBy(OrderOf(ast, keys), Leaves(db[ast.table]))),
                                            Passes(SourceFilter(Renamed(ast))))
  {
    hide SortBy, Filtered, SourceFilter, Renamed, CollectSplitEditKeys, Present, CompareBy;
    var rows, pass := SortBy(OrderOf(ast, keys), Leaves(db[ast.table])), Passes(SourceFilter(Renamed(ast)));
    assert all[k] == f0[k];
    InputShows(all, db, k);
    assert Seen(Input(k), all, db) == Filtered(rows, pass);
    if ast.start.Some? {
      UnaryShows(Input(k), SkipTo(ast.start.value.row, ast.start.value.exclusive), all, db);
      FiltersCommute(rows, pass, OfRow(Present(OrderOf(ast, keys), ast.start.value.row, ast.start.value.exclusive)));
    }
  }

  lemma InputShows(all: seq<Feed>, db: Tables, k: nat)
    requires k < |all| && forall i | 0 <= i < |all| :: all[i].table in db
    ensures Seen(Input(k), all, db) == Filtered(SortBy(MakeComparator(all[k].conn.sort), Leaves(db[all[k].table])),
                                                Passes(all[k].conn.filter))
    ensures PipeSchema(Input(k), Schemas(all)).cmp == MakeComparator(all[k].conn.sort)
  {
  }

  lemma UnaryShows(p: Pipe, op: Op, all: seq<Feed>, db: Tables)
    requires Closed(p, |all|) && forall i | 0 <= i < |all| :: all[i].table in db
    ensures Closed(Unary(op, p), |all|)
    ensures Seen(Unary(op, p), all, db) == OpView(PipeSchema(p, Schemas(all)), op, Seen(p, all, db))
    ensures PipeSchema(Unary(op, p), Schemas(all)) == PipeSchema(p, Schemas(all))
  {
  }

  /** WHERE and LIMIT on top of a pipeline. */
  lemma ChecksShow(ast: AST, partitionKey: Key, joined: Pipe, all: seq<Feed>, db: Tables)
    requires Closed(joined, |all|) && forall i | 0 <= i < |all| :: all[i].table in db
    ensures var p, v := Taken(ast, partitionKey, Checked(ast, joined)), Seen(joined, all, db);
            var where := Renamed(ast);
            && Closed(p, |all|)
            && Seen(p, all, db) == FirstOf(ast, partitionKey, if where.Some?
                                           && Subqueries(where) != [] then Filtered(v, Satisfies(where.value)) else v)
  {
    hide Seen, Renamed, Subqueries, Filtered;
    var where := Renamed(ast);
    if where.Some? { UnaryShows(joined, Where(where.value), all, db); }
    if ast.limit.Some? { UnaryShows(Checked(ast, joined), Limit(ast.limit.value, partitionKey), all, db); }
  }

  /** The pipeline built for a query shows exactly what the query means. */
  lemma {:induction false} BuildShows(ast: AST, keys: Keys, partitionKey: Key, feeds: seq<Feed>, all: seq<Feed>,
                                      db: Tables)
    requires Buildable(ast, keys) && Sensible(ast, keys) && FeedsOk(keys, feeds)
    requires Whole(keys, Build(ast, keys, partitionKey, feeds).1, all, db)
    ensures var p := Build(ast, keys, partitionKey, feeds).0;
            Closed(p, |all|) && Seen(p, all, db) == QueryMeans(ast, keys, db, partitionKey)
    decreases SizeOf(ast), 2, 0
  {
    hide WiredIn, FeedsOk, Wired, Completes, Buildable, Sensible, ChildrenBuildable, ChildrenSensible, JoinAll,
         BuildRows, RowsMean, Renamed, NewNames, DistinctNames, AttachAll;
    ChildrenAre(ast, keys);
    var (rows, f1) := BuildRows(ast, keys, partitionKey, feeds);
    RowsAreWired(ast, keys, partitionKey, feeds);
    RelatedNames(ast, Renamed(ast));
    JoinAllIsWired(SizeOf(ast), Dedupe(ast.related), keys, rows, f1, |feeds|);
    RowsShow(ast, keys, partitionKey, feeds, all, db);
    JoinAllShows(SizeOf(ast), Dedupe(ast.related), keys, rows, f1, |feeds|, all, db);
  }

  // ----- end to end

  /** For every query that meets the naming and key conditions, and every finite run of source changes
      that fit their tables: a client that starts with the query's result on the first tables and folds
      in what the pipeline emits has the query's result on the last tables. */
  lemma EndToEnd(ast: AST, keys: Keys, feeds: seq<Feed>, all: seq<Feed>, db: Tables, run: seq<Event>)
    requires Buildable(ast, keys) && Sensible(ast, keys) && FeedsOk(keys, feeds)
    requires Build(ast, keys, [], feeds).1 <= all && Sane(keys, all, db) && Covers(keys, db) && Valid(keys, db, run)
    ensures var p := Build(ast, keys, [], feeds).0;
            && Closed(p, |all|) && Sane(keys, all, TablesAfter(keys, db, run))
              && Covers(keys, TablesAfter(keys, db, run))
            && Carries(PipeSchema(p, Schemas(all)), QueryMeans(ast, keys, db, []), RunEmits(p, keys, all, db, run),
                       QueryMeans(ast, keys, TablesAfter(keys, db, run), []))
  {
    hide WiredIn, FeedsOk, Wired, Completes, Buildable, Sensible, Build, QueryMeans, RunEmits, Carries, WorldOf,
         Schemas, Splits, Sane, Fitting;
    var (p, grown) := Build(ast, keys, [], feeds);
    var last := TablesAfter(keys, db, run);
    BuildIsWired(ast, keys, [], feeds);
    WiredCloses(p, grown, all, |feeds|);
    WiredInIs(p, all, |feeds|);
    RunCarries(p, keys, all, db, run);
    RunKeepsTables(keys, db, run);
    TablesThere(keys, all, db);
    TablesThere(keys, all, last);
    BuildShows(ast, keys, [], feeds, all, db);
    BuildShows(ast, keys, [], feeds, all, last);
  }

  lemma WiredInIs(p: Pipe, feeds: seq<Feed>, low: nat)
    requires WiredIn(p, feeds, low)
    ensures Wired(p, Schemas(feeds), Splits(feeds))
  {
  }

  lemma {:induction false} RunKeepsTables(keys: Keys, db: Tables, run: seq<Event>)
    requires Covers(keys, db) && Valid(keys, db, run)
    ensures Covers(keys, TablesAfter(keys, db, run))
    decreases |run|
  {
    if run != [] { RunKeepsTables(keys, Write(keys, db, run[0].table, run[0].change), run[1..]); }
  }
}
