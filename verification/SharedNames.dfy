/**
  Queries that the builder accepts although an EXISTS shares its name with a related subquery
  (builder/builder.go:371-404): a single EXISTS, which keeps its name, or one below an AND or OR, whose
  new name the related subquery happens to have. The pipeline then sends what no client can apply.
 */
module SharedNames {
  import opened Values
  import opened Views
  import opened JoinUtils
  import opened Ast
  import opened FilterChain
  import opened ChainPush
  import opened Fetching
  import opened SourceRules
  import opened TakeRules
  import opened TakeUnion
  import opened JoinSpec
  import opened Pipeline
  import opened Database
  import opened Naming
  import opened Builder
  import opened BuilderWiring
  import opened Meaning

  // ----- any query

  /** At every depth, the keys of the correlations mean the join. */
  ghost predicate KeysMean(ast: AST, keys: Keys)
    requires Buildable(ast, keys)
    decreases SizeOf(ast), 1, 0
  {
    ChildrenFit(ast);
    && AllKeysMean(SizeOf(ast), ExistsChildren(Subqueries(Renamed(ast))), keys)
    && AllKeysMean(SizeOf(ast), Dedupe(ast.related), keys)
  }

  ghost predicate AllKeysMean(bound: nat, list: seq<CorrelatedSubquery>, keys: Keys)
    requires FitsIn(list, bound) && ChildrenBuildable(bound, list, keys)
    decreases bound, 0, |list|
  {
    list == []
    || (ValidKeys(CorrelationOf(list[0])) && KeysMean(list[0].subquery, keys) && AllKeysMean(bound, list[1..], keys))
  }

  /** At every depth, no related subquery has the name that an EXISTS beside it has after the renaming. */
  ghost predicate NamesDiffer(ast: AST, keys: Keys)
    requires Buildable(ast, keys)
    decreases SizeOf(ast), 1, 0
  {
    ChildrenFit(ast);
    && (Renamed(ast).Some? ==> forall q | q in ast.related :: RelName(q) !in Names(Renamed(ast).value))
    && AllNamesDiffer(SizeOf(ast), ExistsChildren(Subqueries(Renamed(ast))), keys)
    && AllNamesDiffer(SizeOf(ast), Dedupe(ast.related), keys)
  }

  ghost predicate AllNamesDiffer(bound: nat, list: seq<CorrelatedSubquery>, keys: Keys)
    requires FitsIn(list, bound) && ChildrenBuildable(bound, list, keys)
    decreases bound, 0, |list|
  {
    list == [] || (NamesDiffer(list[0].subquery, keys) && AllNamesDiffer(bound, list[1..], keys))
  }

  /** With keys that mean the join, a query is sensible exactly if the names differ at every depth. */
  lemma {:induction false} SensibleMeans(ast: AST, keys: Keys)
    requires Buildable(ast, keys)
    ensures Sensible(ast, keys) <==> KeysMean(ast, keys) && NamesDiffer(ast, keys)
    decreases SizeOf(ast), 1, 0
  {
    hide Names;
    ChildrenFit(ast);
    AllSensibleMean(SizeOf(ast), ExistsChildren(Subqueries(Renamed(ast))), keys);
    AllSensibleMean(SizeOf(ast), Dedupe(ast.related), keys);
  }

  lemma {:induction false} AllSensibleMean(bound: nat, list: seq<CorrelatedSubquery>, keys: Keys)
    requires FitsIn(list, bound) && ChildrenBuildable(bound, list, keys)
    ensures ChildrenSensible(bound, list, keys) <==> AllKeysMean(bound, list, keys) && AllNamesDiffer(bound, list, keys)
    decreases bound, 0, |list|
  {
    hide ValidKeys, Names;
    if list != [] {
      SensibleMeans(list[0].subquery, keys);
      AllSensibleMean(bound, list[1..], keys);
    }
  }

  // ----- a family of queries

  function AllOf(table: string, alias: string): AST {
    AST(table, alias, None, [], None, None, [])
  }

  function Sub(j: Correlation, table: string): CorrelatedSubquery {
    CorrelatedSubquery(j.parentKey, j.childKey, AllOf(table, j.rel))
  }

  /** The rows of `t` for which there is one of `u`, each with its rows of `v`. */
  function SharedQuery(j: Correlation, k: Correlation, t: string, u: string, v: string, below: bool): AST {
    AST(t, "", Some(Below(Exists(Sub(j, u), false, false, false), below)), [Sub(k, v)], None, None, [])
  }

  /** The condition by itself, or below an AND, where its subquery is renamed. */
  function Below(c: Condition, below: bool): Condition {
    if below then And([c]) else c
  }

  function Named(j: Correlation, below: bool): Correlation {
    if below then j.(rel := Numbered(j.rel, 0)) else j
  }

  function SharedPipe(j: Correlation, k: Correlation, u: string, below: bool): Pipe {
    JoinOf(Unary(Where(Below(Exists(Sub(j, u), false, false, false), below)),
                 JoinOf(Input(0), Unary(Limit(EXISTS_LIMIT, j.childKey), Input(1)), j)), Input(2), k)
  }

  // ----- what is built

  lemma {:induction false} AllOfBuilds(table: string, alias: string, limit: Option<nat>, keys: Keys,
                                       partitionKey: Key, feeds: seq<Feed>)
    requires table in keys
    ensures var ast := AllOf(table, alias).(limit := limit);
            && Buildable(ast, keys)
            && Build(ast, keys, partitionKey, feeds) ==
               (if limit.Some? then Unary(Limit(limit.value, partitionKey), Input(|feeds|)) else Input(|feeds|),
                feeds + [Feed(table, Connection(CompleteOrder(keys[table], []), None, Columns(partitionKey), 0, true))])
  {
    var ast := AllOf(table, alias).(limit := limit);
    ChildrenFit(ast);
    assert Dedupe(ast.related) == [] && ExistsChildren(Subqueries(Renamed(ast))) == [];
    assert CollectSplitEditKeys(Renamed(ast), [], partitionKey) == Columns(partitionKey);
    var one := feeds + [Feed(table, Connect(ast, keys[table], partitionKey))];
    assert JoinAll(SizeOf(ast), [], keys, Input(|feeds|), one) == (Input(|feeds|), one);
    assert BuildRows(ast, keys, partitionKey, feeds) == (Taken(ast, partitionKey, Input(|feeds|)), one);
  }

  lemma SharedLists(j: Correlation, k: Correlation, t: string, u: string, v: string, below: bool)
    requires j.rel != "" && k.rel != ""
    ensures var ast := SharedQuery(j, k, t, u, v, below);
            var n := Named(j, below);
            && Renamed(ast) == Some(Below(Exists(Sub(n, u), false, false, false), below))
            && Subqueries(Renamed(ast)) == [Exists(Sub(n, u), false, false, false)]
            && ExistsChildren(Subqueries(Renamed(ast)))
              == [Sub(n, u).(subquery := AllOf(u, n.rel).(limit := Some(EXISTS_LIMIT)))]
            && Dedupe(ast.related) == [Sub(k, v)] && SourceFilter(Renamed(ast)) == None
  {
    var ast := SharedQuery(j, k, t, u, v, below);
    RenamedBelow(j, u, below);
    OneSubquery(Named(j, below), u, below);
    assert ast.related[..0] == [];
  }

  lemma RenamedBelow(j: Correlation, u: string, below: bool)
    ensures UniquifyAliases(Below(Exists(Sub(j, u), false, false, false), below)) ==
            Below(Exists(Sub(Named(j, below), u), false, false, false), below)
  {
    var d, e := Exists(Sub(j, u), false, false, false), Exists(Sub(Named(j, true), u), false, false, false);
    assert [d][1..] == [] && UniquifyAll([], 1) == ([], 1);
    assert Uniquify(d, 0) == (e, 1) && UniquifyAll([d], 0) == ([e] + [], 1);
    assert [e] + [] == [e];
  }

  lemma OneSubquery(j: Correlation, u: string, below: bool)
    ensures var c, e := Below(Exists(Sub(j, u), false, false, false), below), Exists(Sub(j, u), false, false, false);
            && Gather(c) == [e] && StripSubqueries(c) == None
            && ExistsChildren([e]) == [Sub(j, u).(subquery := AllOf(u, j.rel).(limit := Some(EXISTS_LIMIT)))]
  {
    var e := Exists(Sub(j, u), false, false, false);
    assert [e][1..] == [] && GatherAll([]) == [] && StripAll([]) == [] && ExistsChildren([]) == [];
    assert GatherAll([e]) == [e] + [] && StripAll([e]) == [];
  }

  lemma SharedBuildable(j: Correlation, k: Correlation, t: string, u: string, v: string, below: bool, keys: Keys)
    requires j.rel != "" && k.rel != "" && |j.parentKey| == |j.childKey| && |k.parentKey| == |k.childKey| && t in keys
             && u in keys && v in keys
    ensures Buildable(SharedQuery(j, k, t, u, v, below), keys)
  {
    var ast := SharedQuery(j, k, t, u, v, below);
    SharedLists(j, k, t, u, v, below);
    ChildrenFit(ast);
    AllOfBuilds(u, Named(j, below).rel, Some(EXISTS_LIMIT), keys, [], []);
    AllOfBuilds(v, k.rel, None, keys, [], []);
  }

  lemma {:induction false} AllOfSensible(q: CorrelatedSubquery, table: string, alias: string, limit: Option<nat>,
                                         keys: Keys, bound: nat)
    requires table in keys && q.subquery == AllOf(table, alias).(limit := limit) && FitsIn([q], bound)
             && |q.parentField| == |q.childField|
    ensures ChildrenBuildable(bound, [q], keys) && (ChildrenSensible(bound, [q], keys) <==> ValidKeys(CorrelationOf(q)))
  {
    var ast := q.subquery;
    AllOfBuilds(table, alias, limit, keys, [], []);
    ChildrenFit(ast);
    assert Dedupe(ast.related) == [] && ExistsChildren(Subqueries(Renamed(ast))) == [];
    assert Sensible(ast, keys);
    assert [q][1..] == [];
  }

  /** With keys that mean the join, the query is sensible exactly if the two names differ, the one of the
      EXISTS taken as the builder renames it. */
  lemma SensibleIff(j: Correlation, k: Correlation, t: string, u: string, v: string, below: bool, keys: Keys)
    requires j.rel != "" && k.rel != "" && ValidKeys(j) && ValidKeys(k) && t in keys && u in keys && v in keys
    ensures Buildable(SharedQuery(j, k, t, u, v, below), keys)
    ensures Sensible(SharedQuery(j, k, t, u, v, below), keys) <==> Named(j, below).rel != k.rel
  {
    hide Buildable, SizeOf, Renamed, Subqueries, ExistsChildren, Dedupe, Consistent, ChildrenSensible,
         ChildrenBuildable;
    var ast, n := SharedQuery(j, k, t, u, v, below), Named(j, below);
    var q := Sub(n, u).(subquery := AllOf(u, n.rel).(limit := Some(EXISTS_LIMIT)));
    SharedBuildable(j, k, t, u, v, below, keys);
    SharedLists(j, k, t, u, v, below);
    ChildrenFit(ast);
    AllOfSensible(q, u, n.rel, Some(EXISTS_LIMIT), keys, SizeOf(ast));
    AllOfSensible(Sub(k, v), v, k.rel, None, keys, SizeOf(ast));
    assert CorrelationOf(q) == n && CorrelationOf(Sub(k, v)) == k;
    OneName(n, u, below);
    assert Sub(k, v) in ast.related;
  }

  lemma OneName(j: Correlation, u: string, below: bool)
    requires j.rel != ""
    ensures Names(Below(Exists(Sub(j, u), false, false, false), below)) == {j.rel}
  {
    var e := Exists(Sub(j, u), false, false, false);
    assert [e][1..] == [] && NamesOf([]) == {} && NamesOf([e]) == Names(e) + NamesOf([]);
  }

  lemma SharedBuilds(j: Correlation, k: Correlation, t: string, u: string, v: string, below: bool, keys: Keys)
    requires j.rel != "" && k.rel != "" && |j.parentKey| == |j.childKey| && |k.parentKey| == |k.childKey| && t in keys
             && u in keys && v in keys
    ensures Buildable(SharedQuery(j, k, t, u, v, below), keys)
    ensures var (p, feeds) := Build(SharedQuery(j, k, t, u, v, below), keys, [], []);
            && p == SharedPipe(Named(j, below), k, u, below) && |feeds| == 3
            && feeds[0].table == t && feeds[1].table == u && feeds[2].table == v
            && forall i | 0 <= i < 3 ::
              feeds[i].conn.filter == None && feeds[i].conn.sort == CompleteOrder(keys[feeds[i].table], [])
  {
    hide Buildable, Sensible, CompleteOrder, CollectSplitEditKeys, Renamed, Subqueries, ExistsChildren, Dedupe,
         SizeOf, JoinAll;
    var ast, n := SharedQuery(j, k, t, u, v, below), Named(j, below);
    var q := Sub(n, u).(subquery := AllOf(u, n.rel).(limit := Some(EXISTS_LIMIT)));
    SharedBuildable(j, k, t, u, v, below, keys);
    SharedLists(j, k, t, u, v, below);
    ChildrenFit(ast);
    var f0 := [Feed(t, Connect(ast, keys[t], []))];
    assert [] + f0 == f0;
    JoinOne(SizeOf(ast), q, keys, Input(0), f0);
    AllOfBuilds(u, n.rel, Some(EXISTS_LIMIT), keys, j.childKey, f0);
    var (rows, f1) := BuildRows(ast, keys, [], []);
    assert rows == Unary(Where(Renamed(ast).value),
                         JoinOf(Input(0), Unary(Limit(EXISTS_LIMIT, j.childKey), Input(1)), n));
    JoinOne(SizeOf(ast), Sub(k, v), keys, rows, f1);
    AllOfBuilds(v, k.rel, None, keys, k.childKey, f1);
  }

  lemma {:induction false} JoinOne(bound: nat, q: CorrelatedSubquery, keys: Keys, parent: Pipe, feeds: seq<Feed>)
    requires FitsIn([q], bound) && ChildrenBuildable(bound, [q], keys)
    ensures Buildable(q.subquery, keys)
    ensures var (child, grown) := Build(q.subquery, keys, q.childField, feeds);
            JoinAll(bound, [q], keys, parent, feeds) == (JoinOf(parent, child, CorrelationOf(q)), grown)
  {
    hide Build, Buildable;
    var (child, grown) := Build(q.subquery, keys, q.childField, feeds);
    assert [q][1..] == [];
    assert JoinAll(bound, [], keys, JoinOf(parent, child, CorrelationOf(q)), grown)
      == (JoinOf(parent, child, CorrelationOf(q)), grown);
  }

  // ----- what it sends

  /** One parent with one child, and another child about to come. */
  ghost predicate OneFamily(j: Correlation, S: seq<Schema>, p: Node, x: Node, y: Node) {
    && |S| == 3 && |j.parentKey| == |j.childKey| && TotalOrder(S[1].cmp) && S[1].cmp(x.row, y.row) != 0
    && IsJoinMatch(p.row, j.parentKey, x.row, j.childKey) && IsJoinMatch(p.row, j.parentKey, y.row, j.childKey)
  }

  lemma MatchedKey(j: Correlation, parent: Row, child: Row)
    requires |j.parentKey| == |j.childKey| && IsJoinMatch(parent, j.parentKey, child, j.childKey)
    ensures NoNulls(KeyOf(j.childKey, child))
  {
    forall i | 0 <= i < |j.childKey| ensures !KeyOf(j.childKey, child)[i].Null? {
      assert ValuesEqual(Get(parent, j.parentKey[i]), Get(child, j.childKey[i]));
    }
  }

  lemma Limited(j: Correlation, S: seq<Schema>, p: Node, x: Node, y: Node)
    requires OneFamily(j, S, p, x, y)
    ensures OpView(S[1], Limit(EXISTS_LIMIT, j.childKey), [x]) == [x]
    ensures OpStep(S[1], Limit(EXISTS_LIMIT, j.childKey), [x], Add(y)) == [Add(y)]
  {
    var sch := S[1];
    MatchedKey(j, p.row, x.row);
    MatchedKey(j, p.row, y.row);
    var kx := KeyOf(j.childKey, x.row);
    FilteredAll([x], KeyIs(j.childKey, kx));
    assert InWindow(EXISTS_LIMIT, j.childKey, Askable(), [x])(x);
    FilteredAll([x], InWindow(EXISTS_LIMIT, j.childKey, Askable(), [x]));
    assert Sorted(sch.cmp, [x]) && !Has(sch.cmp, [x], y.row);
    var part := Part([x], j.childKey, KeyOf(j.childKey, y.row));
    assert |part| <= 1;
  }

  function Inner(j: Correlation): Pipe {
    JoinOf(Input(0), Unary(Limit(EXISTS_LIMIT, j.childKey), Input(1)), j)
  }

  lemma {:induction false} UnaryEmits(p: Pipe, op: Op, S: seq<Schema>, T: World, k: nat, ch: Change, c: Change)
    requires |S| == |T| && Closed(p, |S|) && Emit(p, S, T, k, ch) == [c]
    ensures Closed(Unary(op, p), |S|)
            && Emit(Unary(op, p), S, T, k, ch) == OpStep(PipeSchema(p, S), op, View(p, S, T), c)
    ensures View(Unary(op, p), S, T) == OpView(PipeSchema(p, S), op, View(p, S, T))
            && PipeSchema(Unary(op, p), S) == PipeSchema(p, S)
  {
    hide OpStep, OpView, Apply;
    var sch, s := PipeSchema(p, S), View(p, S, T);
    assert [c][1..] == [];
    assert OpSteps(sch, op, s, [c]) == OpStep(sch, op, s, c) + OpSteps(sch, op, Apply(sch, s, c), []);
  }

  /** The EXISTS join tells the parent of its second child. */
  lemma InnerEmits(j: Correlation, S: seq<Schema>, p: Node, x: Node, y: Node)
    requires OneFamily(j, S, p, x, y)
    ensures Closed(Inner(j), |S|)
    ensures var after := Apply(S[1], [x], Add(y));
            Emit(Inner(j), S, [[p], [x], []], 1, Add(y)) == [Child(Attach(j, after, p), j.rel, Add(y))]
              && |ChildrenOf(j, after, p.row)| == 2
  {
    hide OpView, OpStep, Emit, View, Filtered;
    var T: World := [[p], [x], []];
    var limited, op, after := Unary(Limit(EXISTS_LIMIT, j.childKey), Input(1)), Limit(EXISTS_LIMIT, j.childKey),
      Apply(S[1], [x], Add(y));
    Limited(j, S, p, x, y);
    assert Closed(Input(0), |S|) && Closed(Input(1), |S|);
    BareEmits(S, T, 1, Add(y));
    BareEmits(S, T, 0, Add(y));
    UnaryEmits(Input(1), op, S, T, 1, Add(y), Add(y));
    ChildEmits(Input(0), limited, j, S, T, 1, Add(y), Add(y));
    FilteredAll([p], ParentOf(j, y.row));
    Children(S[1], x, y);
    FilteredAll(after, ChildOf(j, p.row));
  }

  lemma Children(sch: Schema, x: Node, y: Node)
    ensures Apply(sch, [x], Add(y)) == [x, y] || Apply(sch, [x], Add(y)) == [y, x]
  {
  }

  lemma BareEmits(S: seq<Schema>, T: World, k: nat, ch: Change)
    requires |S| == |T| && k < |S|
    ensures Emit(Input(k), S, T, k, ch) == [ch] && View(Input(k), S, T) == T[k] && PipeSchema(Input(k), S) == S[k]
  {
  }

  lemma {:induction false} ChildEmits(p: Pipe, child: Pipe, j: Correlation, S: seq<Schema>, T: World, k: nat,
                                      ch: Change, c: Change)
    requires |S| == |T| && Closed(p, |S|) && Closed(child, |S|) && |j.parentKey| == |j.childKey|
    requires k !in Conns(p) && Emit(child, S, T, k, ch) == [c]
    ensures Emit(JoinOf(p, child, j), S, T, k, ch) ==
            ChildStep(j, View(p, S, T), Apply(PipeSchema(child, S), View(child, S, T), c), c)
  {
    hide View, ChildStep, Apply, PipeSchema;
    assert [c][1..] == [];
    var after := Apply(PipeSchema(child, S), View(child, S, T), c);
    assert ChildSteps(j, PipeSchema(child, S), View(p, S, T), View(child, S, T), [c]) ==
           ChildStep(j, View(p, S, T), after, c) + ChildSteps(j, PipeSchema(child, S), View(p, S, T), after, []);
  }

  lemma {:induction false} ParentEmits(p: Pipe, child: Pipe, j: Correlation, S: seq<Schema>, T: World, k: nat,
                                       ch: Change, c: Change)
    requires |S| == |T| && Closed(p, |S|) && Closed(child, |S|) && |j.parentKey| == |j.childKey|
    requires k in Conns(p) && Emit(p, S, T, k, ch) == [c]
    ensures Emit(JoinOf(p, child, j), S, T, k, ch) == [ParentStep(j, View(child, S, T), c)]
  {
    hide View, ParentStep;
    assert [c][1..] == [];
    assert ParentSteps(j, View(child, S, T), []) == [];
  }

  /** The WHERE clause lets that through. */
  lemma CheckedEmits(j: Correlation, u: string, below: bool, S: seq<Schema>, p: Node, x: Node, y: Node)
    requires OneFamily(j, S, p, x, y) && j.rel != ""
    ensures var rows := Unary(Where(Below(Exists(Sub(j, u), false, false, false), below)), Inner(j));
            Closed(rows, |S|) && Emit(rows, S, [[p], [x], []], 1, Add(y))
              == [Child(Attach(j, Apply(S[1], [x], Add(y)), p), j.rel, Add(y))]
  {
    hide OpView, Apply, Emit, View, PipeSchema, Filtered;
    var e, cond, c := Exists(Sub(j, u), false, false, false), Below(Exists(Sub(j, u), false, false, false), below),
      Child(Attach(j, Apply(S[1], [x], Add(y)), p), j.rel, Add(y));
    InnerEmits(j, S, p, x, y);
    assert PushChain(e, c) == Push(c) && [e][1..] == [] && AndPush([], c) == Push(c);
    assert PushChain(cond, c) == Push(c);
    UnaryEmits(Inner(j), Where(cond), S, [[p], [x], []], 1, Add(y), c);
    assert c.node.rels[j.rel] == ChildrenOf(j, Apply(S[1], [x], Add(y)), p.row);
  }

  lemma InnerConns(j: Correlation)
    ensures Conns(Inner(j)) == {0, 1}
  {
    var limited := Unary(Limit(EXISTS_LIMIT, j.childKey), Input(1));
    assert Conns(Input(0)) == {0} && Conns(Input(1)) == {1} && Conns(limited) == {1};
    assert Inner(j) == JoinOf(Input(0), limited, j);
  }

  /** And the related join puts its own children in the place of those. */
  lemma SharedEmits(j: Correlation, k: Correlation, u: string, below: bool, S: seq<Schema>, p: Node, x: Node, y: Node)
    requires OneFamily(j, S, p, x, y) && j.rel == k.rel != "" && |k.parentKey| == |k.childKey|
    ensures Closed(SharedPipe(j, k, u, below), |S|)
    ensures Emit(SharedPipe(j, k, u, below), S, [[p], [x], []], 1, Add(y))
            == [Child(Node(p.row, p.rels[j.rel := []]), j.rel, Add(y))]
  {
    hide Apply, Emit, PipeSchema;
    var after := Apply(S[1], [x], Add(y));
    var rows, c := Unary(Where(Below(Exists(Sub(j, u), false, false, false), below)), Inner(j)),
      Child(Attach(j, after, p), j.rel, Add(y));
    CheckedEmits(j, u, below, S, p, x, y);
    InnerConns(j);
    assert Conns(rows) == Conns(Inner(j));
    ParentEmits(rows, Input(2), k, S, [[p], [x], []], 1, Add(y), c);
    assert ChildrenOf(k, [], p.row) == [];
    assert p.rels[j.rel := ChildrenOf(j, after, p.row)][j.rel := []] == p.rels[j.rel := []];
  }

  /** Whatever the client has: after an added child the relationship is not empty. */
  lemma NeverLegal(sch: Schema, s: seq<Node>, n: Node, rel: string, y: Node, t: seq<Node>)
    requires rel in n.rels && n.rels[rel] == []
    ensures !Carries(sch, s, [Child(n, rel, Add(y))], t)
  {
  }

  // ----- a query, tables and a change

  /** A row `a` of `t` with one row `b` of `u`, and another, `c`, about to come; `v` is empty. */
  ghost predicate Family(j: Correlation, k: Correlation, t: string, u: string, v: string, below: bool, keys: Keys,
                         db: Tables, a: Row, b: Row, c: Row) {
    && t != u && u != v && t in keys && u in keys && v in keys && Covers(keys, db)
    && (forall k | k in db :: k in keys && Table(keys[k], db[k]))
    && db[t] == [a] && db[u] == [b] && db[v] == []
    && j.rel != "" && k.rel == Named(j, below).rel && ValidKeys(j) && ValidKeys(k)
    && IsJoinMatch(a, j.parentKey, b, j.childKey) && IsJoinMatch(a, j.parentKey, c, j.childKey)
    && Fitting(keys[u], db[u], AddRow(c))
  }

  /** The query can be built, its keys mean the join, the tables and the change are in order; only the
      name is shared. Whatever the client has, it cannot fold in what it is sent. */
  lemma {:induction false} SharedNameBreaks(j: Correlation, k: Correlation, t: string, u: string, v: string,
                                            below: bool, keys: Keys, db: Tables, a: Row, b: Row, c: Row)
    requires Family(j, k, t, u, v, below, keys, db, a, b, c)
    ensures var ast, run := SharedQuery(j, k, t, u, v, below), [Event(u, AddRow(c))];
            && Buildable(ast, keys) && !Sensible(ast, keys)
            && var (p, all) := Build(ast, keys, [], []);
               && Sane(keys, all, db) && Covers(keys, db) && Valid(keys, db, run) && Closed(p, |all|)
               && forall s: seq<Node>, s': seq<Node> ::
                 !Carries(PipeSchema(p, Schemas(all)), s, RunEmits(p, keys, all, db, run), s')
  {
    hide Buildable, Build, Sensible, Emit, View, Carries, CompareBy, PipeSchema;
    var ast, run := SharedQuery(j, k, t, u, v, below), [Event(u, AddRow(c))];
    SensibleIff(j, k, t, u, v, below, keys);
    SharedBuilds(j, k, t, u, v, below, keys);
    var (p, all) := Build(ast, keys, [], []);
    FamilyIsSane(j, k, t, u, v, below, keys, db, a, b, c, all);
    FamilyEmits(j, k, t, u, v, below, keys, db, a, b, c, all);
    var n := Node(a, map[k.rel := []]);
    forall s: seq<Node>, s': seq<Node>
      ensures !Carries(PipeSchema(p, Schemas(all)), s, RunEmits(p, keys, all, db, run), s') {
      NeverLegal(PipeSchema(p, Schemas(all)), s, n, k.rel, Leaf(c), s');
    }
  }

  ghost predicate SharedFeeds(t: string, u: string, v: string, keys: Keys, all: seq<Feed>) {
    && |all| == 3 && all[0].table == t && all[1].table == u && all[2].table == v && t in keys && u in keys && v in keys
    && forall i | 0 <= i < 3 :: all[i].conn.filter == None && all[i].conn.sort == CompleteOrder(keys[all[i].table], [])
  }

  lemma {:induction false} FamilyIsSane(j: Correlation, k: Correlation, t: string, u: string, v: string, below: bool,
                                        keys: Keys, db: Tables, a: Row, b: Row, c: Row, all: seq<Feed>)
    requires Family(j, k, t, u, v, below, keys, db, a, b, c) && SharedFeeds(t, u, v, keys, all)
    ensures Sane(keys, all, db) && Valid(keys, db, [Event(u, AddRow(c))])
  {
    hide CompareBy, CompleteOrder, Completes, Table, Fitting, Written;
    forall i | 0 <= i < 3 ensures Completes(all[i].conn.sort, keys[all[i].table]) {
      OrderIsComplete(keys[all[i].table], []);
    }
    var run := [Event(u, AddRow(c))];
    assert run[1..] == [];
    assert Valid(keys, Write(keys, db, u, AddRow(c)), []);
  }

  lemma {:induction false} FamilyEmits(j: Correlation, k: Correlation, t: string, u: string, v: string, below: bool,
                                       keys: Keys, db: Tables, a: Row, b: Row, c: Row, all: seq<Feed>)
    requires Family(j, k, t, u, v, below, keys, db, a, b, c) && SharedFeeds(t, u, v, keys, all)
    requires Sane(keys, all, db) && Valid(keys, db, [Event(u, AddRow(c))])
    ensures Closed(SharedPipe(Named(j, below), k, u, below), 3)
    ensures RunEmits(SharedPipe(Named(j, below), k, u, below), keys, all, db, [Event(u, AddRow(c))])
            == [Child(Node(a, map[k.rel := []]), k.rel, Add(Leaf(c)))]
  {
    hide Emit, CompareBy, CompleteOrder, Completes, Table, Fitting, Written, ConnView, PushEmits, Valid, Emissions;
    var p, sc, S, x, y := SharedPipe(Named(j, below), k, u, below), AddRow(c), Schemas(all), Leaf(b), Leaf(c);
    var after := Written(keys[u], db[u], sc);
    assert Closed(Input(0), 3) && Closed(Input(1), 3) && Closed(Input(2), 3);
    assert Conns(Input(1)) == {1} && 1 in Conns(Unary(Limit(EXISTS_LIMIT, j.childKey), Input(1)))
      && 1 in Conns(Inner(Named(j, below))) && 1 in Conns(p);
    FewRows(all[0].conn, db[t]);
    FewRows(all[1].conn, db[u]);
    FewRows(all[2].conn, db[v]);
    NewChild(keys, all, db, u, b, c);
    assert Leaves([a]) == [Leaf(a)] && Leaves([b]) == [x];
    assert WorldAt(all, db, u, after, 1) == [[Leaf(a)], [x], []];
    SharedEmits(Named(j, below), k, u, below, S, Leaf(a), x, y);
    var out := [Child(Node(a, map[k.rel := []]), k.rel, Add(y))];
    assert Leaf(a).rels[k.rel := []] == map[k.rel := []];
    assert Told(p, all, db, u, after, Add(y), 0) == [] && Told(p, all, db, u, after, Add(y), 2) == [];
    assert Told(p, all, db, u, after, Add(y), 1) == out;
    ThreeTurns(p, all, db, u, after, Add(y));
    OnlyPush(p, keys, all, db, u, sc);
    OneEvent(p, keys, all, db, u, sc);
  }

  lemma {:induction false} OneEvent(p: Pipe, keys: Keys, all: seq<Feed>, db: Tables, u: string, sc: SourceChange)
    requires Closed(p, |all|) && Sane(keys, all, db) && Valid(keys, db, [Event(u, sc)]) && u in db && u in keys
             && !sc.EditRow?
    ensures RunEmits(p, keys, all, db, [Event(u, sc)]) == Emissions(p, keys, all, db, u, [sc])
  {
    hide Emissions, Closed, Fitting, Written, Table, Completes;
    var run, next := [Event(u, sc)], Write(keys, db, u, sc);
    assert run[1..] == [];
    assert RunEmits(p, keys, all, next, []) == [];
  }

  lemma {:induction false} ThreeTurns(p: Pipe, all: seq<Feed>, db: Tables, u: string, after: seq<Row>, ch: Change)
    requires |all| == 3 && Closed(p, 3) && forall i | 0 <= i < 3 :: all[i].table in db
    ensures PushEmits(p, all, db, u, after, ch, 3) ==
            Told(p, all, db, u, after, ch, 0) + Told(p, all, db, u, after, ch, 1) + Told(p, all, db, u, after, ch, 2)
  {
    hide Told, Closed;
    assert PushEmits(p, all, db, u, after, ch, 0) == [];
    assert PushEmits(p, all, db, u, after, ch, 1) == Told(p, all, db, u, after, ch, 0);
    assert PushEmits(p, all, db, u, after, ch, 2)
      == PushEmits(p, all, db, u, after, ch, 1) + Told(p, all, db, u, after, ch, 1);
  }

  /** A connection without a filter shows a table of at most one row as it is. */
  lemma FewRows(conn: Connection, rows: seq<Row>)
    requires conn.filter == None && |rows| <= 1
    ensures ConnView(conn, rows) == Leaves(rows)
  {
    hide CompareBy;
    FilteredAll(Leaves(rows), Passes(None));
    if rows != [] { assert Leaves(rows)[1..] == [] && SortBy(MakeComparator(conn.sort), []) == []; }
  }

  lemma {:induction false} NewChild(keys: Keys, all: seq<Feed>, db: Tables, u: string, b: Row, c: Row)
    requires |all| == 3 && all[1].table == u && all[1].conn.filter == None && Sane(keys, all, db)
    requires u in db && db[u] == [b] && Fitting(keys[u], db[u], AddRow(c))
    ensures var cmp := Schemas(all)[1].cmp; TotalOrder(cmp) && cmp(b, c) != 0
  {
    hide CompareBy, Completes, Fitting, Written, ConnView;
    var cmp, conn := Schemas(all)[1].cmp, all[1].conn;
    ComparatorIsTotalOrder(conn.sort);
    FewRows(conn, db[u]);
    ConnCarries(keys[u], db[u], AddRow(c), conn);
    assert [Add(Leaf(c))][1..] == [];
    assert !Has(cmp, [Leaf(b)], c);
  }

  // ----- an instance

  const EXAMPLE_KEYS: Keys := map["t" := ["id"], "u" := ["id"], "v" := ["id"]]

  function Row1(): Row { map["id" := Num(1.0), "parent" := Num(1.0)] }
  function Row2(): Row { map["id" := Num(2.0), "parent" := Num(1.0)] }

  const EXAMPLE_TABLES: Tables := map["t" := [Row1()], "u" := [Row1()], "v" := []]

  /** There are such tables and changes. */
  lemma FamilyExists(below: bool)
    ensures var j := Correlation(["id"], ["parent"], "r");
            Family(j, Named(j, below), "t", "u", "v", below, EXAMPLE_KEYS, EXAMPLE_TABLES, Row1(), Row1(), Row2())
  {
    hide Table, Fitting, IsJoinMatch;
    assert IsJoinMatch(Row1(), ["id"], Row1(), ["parent"])
      && IsJoinMatch(Row1(), ["id"], Row2(), ["parent"]) by { Joins(); }
    Tables1();
    Fits2();
    assert "t" != "u" && "u" != "v" && "t" != "v" by { assert "t"[0] != "u"[0] && "u"[0] != "v"[0]
                                                      && "t"[0] != "v"[0]; }
  }

  lemma Joins()
    ensures IsJoinMatch(Row1(), ["id"], Row1(), ["parent"]) && IsJoinMatch(Row1(), ["id"], Row2(), ["parent"])
  {
    assert "id" != "parent";
  }

  lemma Tables1()
    ensures Table(["id"], [Row1()]) && Table(["id"], [])
  {
  }

  lemma Fits2()
    ensures Fitting(["id"], [Row1()], AddRow(Row2()))
  {
    PrimaryOrder(["id"], Row1(), Row2());
    assert "id" != "parent";
    assert Get(Row1(), "id") == Num(1.0) && Get(Row2(), "id") == Num(2.0);
    assert !RowEqualsForKey(Row1(), Row2(), ["id"]);
  }
}
