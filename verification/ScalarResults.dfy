/**
  The rewriting of scalar subqueries, seen from the results: the rewritten query has the same rows in the same order,
  with the same rows in every related relationship, at every depth (builder/resolve_scalar.go).
 */
module ScalarResults {
  import opened Values
  import opened RowOrder
  import opened Views
  import opened JoinUtils
  import opened Ast
  import opened JoinSpec
  import opened Fetching
  import opened Database
  import opened Builder
  import opened BuilderWiring
  import opened Meaning
  import opened Truth
  import opened ScalarSubqueries
  import opened Results
  import opened BuilderMeaning

  // ----- what the rewriting leaves as it is

  lemma {:induction false} ResolvedRelated(list: seq<CorrelatedSubquery>, unique: UniqueKeys, execute: Executor)
    ensures var r := ResolveRelated(list, unique, execute);
            && |r| == |list|
            && forall k | 0 <= k < |list| ::
                 r[k].parentField == list[k].parentField && r[k].childField == list[k].childField
                 && r[k].subquery == ResolveAst(list[k].subquery, unique, execute)
  {
    if list != [] {
      ResolvedRelated(list[1..], unique, execute);
      assert forall k | 0 < k < |list| :: list[k] == list[1..][k - 1];
    }
  }

  /** Only the conditions are rewritten: table, alias, cursor, limit and ordering stay, and so do the related
      subqueries, in number, order, keys and names. */
  lemma ResolveKeeps(ast: AST, unique: UniqueKeys, execute: Executor)
    ensures var r := ResolveAst(ast, unique, execute);
            && r.table == ast.table && r.alias == ast.alias && r.start == ast.start && r.limit == ast.limit
            && r.orderBy == ast.orderBy && r.where.Some? == ast.where.Some? && |r.related| == |ast.related|
            && forall k | 0 <= k < |ast.related| ::
                 && r.related[k].parentField == ast.related[k].parentField
                 && r.related[k].childField == ast.related[k].childField
                 && RelName(r.related[k]) == RelName(ast.related[k])
                 && r.related[k].subquery == ResolveAst(ast.related[k].subquery, unique, execute)
  {
    ResolvedRelated(ast.related, unique, execute);
  }

  // ----- the rewritten query can be built

  /** A subquery of the rewritten condition is one of the original condition, with its own query rewritten or left. */
  ghost predicate FromOne(e: Condition, d: Condition, unique: UniqueKeys, execute: Executor) {
    && d.Exists? && e.Exists? && e.flip == d.flip
    && (e == d || e.related == d.related.(subquery := ResolveAst(d.related.subquery, unique, execute)))
  }

  lemma {:induction false} GatherResolved(c: Condition, unique: UniqueKeys, execute: Executor)
    ensures forall e | e in Gather(ResolveCondition(c, unique, execute)) ::
              exists d :: d in Gather(c) && FromOne(e, d, unique, execute)
    decreases c, 1
  {
    match c
    case Simple(_, _, _) =>
    case And(cs) => GatherAllResolved(cs, unique, execute);
    case Or(cs) => GatherAllResolved(cs, unique, execute);
    case Exists(q, not, flip, scalar) =>
      forall e | e in Gather(ResolveCondition(c, unique, execute))
        ensures c in Gather(c) && FromOne(e, c, unique, execute) {
      }
  }

  lemma {:induction false} GatherAllResolved(cs: seq<Condition>, unique: UniqueKeys, execute: Executor)
    ensures forall e | e in GatherAll(ResolveConditions(cs, unique, execute)) ::
              exists d :: d in GatherAll(cs) && FromOne(e, d, unique, execute)
    decreases cs, 0
  {
    hide ResolveCondition, Gather, FromOne;
    if cs != [] {
      GatherResolved(cs[0], unique, execute);
      GatherAllResolved(cs[1..], unique, execute);
      var r := ResolveConditions(cs, unique, execute);
      assert r[1..] == ResolveConditions(cs[1..], unique, execute) && r[0] == ResolveCondition(cs[0], unique, execute);
    }
  }

  /** Where a query can be built, its rewritten form can. */
  lemma {:induction false} ResolvedBuilds(ast: AST, unique: UniqueKeys, execute: Executor, keys: Keys)
    requires Buildable(ast, keys)
    ensures Buildable(ResolveAst(ast, unique, execute), keys)
    decreases SizeOf(ast)
  {
    hide Buildable, ResolveAst, RelName;
    var res := ResolveAst(ast, unique, execute);
    BuildableMeans(ast, keys);
    BuildableMeans(res, keys);
    ResolveKeeps(ast, unique, execute);
    RelatedFit(ast.related);
    forall k: nat | LastNamed(res.related, k) ensures Builds(res.related[k], keys) {
      assert LastNamed(ast.related, k) && Builds(ast.related[k], keys);
      ResolvedBuilds(ast.related[k].subquery, unique, execute, keys);
    }
    if ast.where.Some? {
      var c := ast.where.value;
      ResolvedWhere(ast, unique, execute);
      GatherFacts(c);
      GatherResolved(c, unique, execute);
      forall e | e in Gather(res.where.value) && e.Exists? && !e.flip ensures Builds(e.related, keys) {
        var d :| d in Gather(c) && FromOne(e, d, unique, execute);
        ResolvedBuilds(d.related.subquery, unique, execute, keys);
      }
    }
  }

  lemma ResolvedWhere(ast: AST, unique: UniqueKeys, execute: Executor)
    requires ast.where.Some?
    ensures ResolveAst(ast, unique, execute).where == Some(ResolveCondition(ast.where.value, unique, execute))
  {
  }

  // ----- the same results

  /** The conditions of the query and of its related subqueries, at every depth, are ones that the rewriting is
      right for. */
  ghost predicate Rewritable(ast: AST, unique: UniqueKeys, execute: Executor, keys: Keys, db: Tables)
    decreases ast
  {
    && (ast.where.Some? ==> Plain(ast.where.value) && Faithful(ast.where.value, unique, execute, keys, db))
    && forall k | 0 <= k < |ast.related| :: Rewritable(ast.related[k].subquery, unique, execute, keys, db)
  }

  /** The lists have the same rows in the same order, and in the relationships of `related` the same again. */
  ghost predicate SameTree(related: seq<CorrelatedSubquery>, a: seq<Node>, b: seq<Node>)
    decreases related, 1
  {
    |a| == |b| && forall i | 0 <= i < |a| :: a[i].row == b[i].row && SameNode(related, a[i], b[i])
  }

  ghost predicate SameNode(related: seq<CorrelatedSubquery>, m: Node, n: Node)
    decreases related, 0
  {
    forall k: nat | LastNamed(related, k) ::
      var s := RelName(related[k]);
      s in m.rels && s in n.rels && SameTree(related[k].subquery.related, m.rels[s], n.rels[s])
  }

  lemma SameWanted(rows: seq<Row>, limit: Option<nat>, orderBy: Ordering, key: Key, v: Row -> bool, w: Row -> bool)
    requires FirstOfThem(rows, limit, orderBy, key, v) && forall r :: v(r) == w(r)
    ensures FirstOfThem(rows, limit, orderBy, key, w)
  {
    hide ComesBefore;
  }

  /** The query can be built, and it and its rewritten form are sensible, on tables that are in order. */
  ghost predicate Both(ast: AST, unique: UniqueKeys, execute: Executor, keys: Keys, db: Tables): (both: bool)
    ensures both ==> Buildable(ResolveAst(ast, unique, execute), keys)
  {
    && Buildable(ast, keys) && Sensible(ast, keys)
    && (ResolvedBuilds(ast, unique, execute, keys);
        Buildable(ResolveAst(ast, unique, execute), keys) && Sensible(ResolveAst(ast, unique, execute), keys))
    && Covers(keys, db) && Keyed(keys, db) && TrulyUnique(unique, db) && Rewritable(ast, unique, execute, keys, db)
  }

  lemma BothRelated(ast: AST, unique: UniqueKeys, execute: Executor, keys: Keys, db: Tables, k: nat)
    requires Both(ast, unique, execute, keys, db) && LastNamed(ast.related, k)
    ensures LastNamed(ResolveAst(ast, unique, execute).related, k)
    ensures Both(ast.related[k].subquery, unique, execute, keys, db)
    ensures |ast.related[k].parentField| == |ast.related[k].childField|
  {
    hide Buildable, Sensible, Covers, Keyed, TrulyUnique, ResolveAst, RelName;
    ResolveKeeps(ast, unique, execute);
    BuiltRelated(ast, keys, k);
    BuiltRelated(ResolveAst(ast, unique, execute), keys, k);
  }

  /** The children of two nodes with one row, in the relationship of one related subquery. */
  lemma SameChildRows(q: CorrelatedSubquery, unique: UniqueKeys, execute: Executor, keys: Keys, db: Tables, row: Row)
    requires Both(q.subquery, unique, execute, keys, db) && |q.parentField| == |q.childField|
    ensures var r := q.(subquery := ResolveAst(q.subquery, unique, execute));
            && RelName(r) == RelName(q)
            && RowsOf(ChildrenOf(CorrelationOf(q), QueryMeans(q.subquery, keys, db, q.childField), row))
               == RowsOf(ChildrenOf(CorrelationOf(r), QueryMeans(r.subquery, keys, db, r.childField), row))
  {
    hide Buildable, Sensible, Covers, Keyed, QueryMeans, FirstOfThem, Qualifies, ResolveAst, IsJoinMatch, TrulyUnique;
    var r := q.(subquery := ResolveAst(q.subquery, unique, execute));
    ResolveKeeps(q.subquery, unique, execute);
    ChildRowsAre(q, keys, db, row);
    ChildRowsAre(r, keys, db, row);
    var v, w := ChildrenAsked(q, row, keys, db), ChildrenAsked(r, row, keys, db);
    forall c: Row ensures w(c) == v(c) {
      ResolvedQualifies(q.subquery, c, unique, execute, keys, db);
    }
    var key := keys[q.subquery.table];
    var a := RowsOf(ChildrenOf(CorrelationOf(q), QueryMeans(q.subquery, keys, db, q.childField), row));
    var b := RowsOf(ChildrenOf(CorrelationOf(r), QueryMeans(r.subquery, keys, db, r.childField), row));
    SameWanted(b, q.subquery.limit, q.subquery.orderBy, key, w, v);
    FirstUnique(q.subquery, keys, a, b, q.subquery.limit, v);
  }

  lemma {:induction false} NodesSame(ast: AST, unique: UniqueKeys, execute: Executor, keys: Keys, db: Tables,
                                     partitionKey: Key, m: Node, n: Node)
    requires Both(ast, unique, execute, keys, db) && m.row == n.row
    requires m in QueryMeans(ast, keys, db, partitionKey)
    requires n in QueryMeans(ResolveAst(ast, unique, execute), keys, db, partitionKey)
    ensures SameNode(ast.related, m, n)
    decreases ast
  {
    hide Buildable, Sensible, Covers, Keyed, QueryMeans, ResolveAst, TrulyUnique, Rewritable, RelName, IsJoinMatch,
         Both;
    forall k: nat | LastNamed(ast.related, k)
      ensures var s := RelName(ast.related[k]);
              s in m.rels && s in n.rels && SameTree(ast.related[k].subquery.related, m.rels[s], n.rels[s])
    {
      RelatedSame(ast, unique, execute, keys, db, partitionKey, m, n, k);
    }
  }

  lemma {:induction false} RelatedSame(ast: AST, unique: UniqueKeys, execute: Executor, keys: Keys, db: Tables,
                                       partitionKey: Key, m: Node, n: Node, k: nat)
    requires Both(ast, unique, execute, keys, db) && m.row == n.row && LastNamed(ast.related, k)
    requires m in QueryMeans(ast, keys, db, partitionKey)
    requires n in QueryMeans(ResolveAst(ast, unique, execute), keys, db, partitionKey)
    ensures var s := RelName(ast.related[k]);
            s in m.rels && s in n.rels && SameTree(ast.related[k].subquery.related, m.rels[s], n.rels[s])
    decreases ast.related
  {
    hide Buildable, Sensible, Covers, Keyed, QueryMeans, ResolveAst, TrulyUnique, Rewritable, IsJoinMatch, SameNode;
    var q, res := ast.related[k], ResolveAst(ast, unique, execute);
    ResolveKeeps(ast, unique, execute);
    BothRelated(ast, unique, execute, keys, db, k);
    var r := res.related[k];
    assert r == q.(subquery := ResolveAst(q.subquery, unique, execute));
    RelatedAre(ast, keys, db, partitionKey, m, k);
    RelatedAre(res, keys, db, partitionKey, n, k);
    SameChildRows(q, unique, execute, keys, db, m.row);
    var a, b := m.rels[RelName(q)], n.rels[RelName(q)];
    assert |a| == |RowsOf(a)| && |b| == |RowsOf(b)|;
    forall i | 0 <= i < |a| ensures a[i].row == b[i].row && SameNode(q.subquery.related, a[i], b[i]) {
      assert RowsOf(a)[i] == RowsOf(b)[i];
      FilteredMembers(QueryMeans(q.subquery, keys, db, q.childField), ChildOf(CorrelationOf(q), m.row));
      FilteredMembers(QueryMeans(r.subquery, keys, db, r.childField), ChildOf(CorrelationOf(r), n.row));
      assert a[i] in a && b[i] in b;
      NodesSame(q.subquery, unique, execute, keys, db, q.childField, a[i], b[i]);
    }
  }

  /** The result of the rewritten query: the same rows in the same order, with the same rows in each related
      relationship, and so on down. */
  lemma ResultsSame(ast: AST, unique: UniqueKeys, execute: Executor, keys: Keys, db: Tables)
    requires Both(ast, unique, execute, keys, db)
    ensures SameTree(ast.related, QueryMeans(ast, keys, db, []),
                     QueryMeans(ResolveAst(ast, unique, execute), keys, db, []))
  {
    hide Buildable, Sensible, Covers, Keyed, QueryMeans, ResolveAst, TrulyUnique, Rewritable, SameNode, FirstOfThem,
         Qualifies;
    var res := ResolveAst(ast, unique, execute);
    var a, b := QueryMeans(ast, keys, db, []), QueryMeans(res, keys, db, []);
    ResolveKeeps(ast, unique, execute);
    ResultIs(ast, keys, db);
    ResultIs(res, keys, db);
    var v, w := Asked(ast, keys, db), Asked(res, keys, db);
    RewritableWhere(ast, unique, execute, keys, db);
    forall c: Row ensures w(c) == v(c) {
      ResolvedQualifies(ast, c, unique, execute, keys, db);
    }
    SameWanted(RowsOf(b), ast.limit, ast.orderBy, keys[ast.table], w, v);
    FirstUnique(ast, keys, RowsOf(a), RowsOf(b), ast.limit, v);
    assert |a| == |RowsOf(a)| && |b| == |RowsOf(b)|;
    forall i | 0 <= i < |a| ensures a[i].row == b[i].row && SameNode(ast.related, a[i], b[i]) {
      assert RowsOf(a)[i] == RowsOf(b)[i];
      NodesSame(ast, unique, execute, keys, db, [], a[i], b[i]);
    }
  }

  lemma RewritableWhere(ast: AST, unique: UniqueKeys, execute: Executor, keys: Keys, db: Tables)
    requires Rewritable(ast, unique, execute, keys, db)
    ensures ast.where.Some? ==> Plain(ast.where.value) && Faithful(ast.where.value, unique, execute, keys, db)
  {
  }

  /** The engine answers with the field of the row that comes first, in the subquery's order, of those that qualify. */
  lemma FirstAnswer(ast: AST, field: string, keys: Keys, db: Tables)
    requires Buildable(ast, keys) && Sensible(ast, keys) && Covers(keys, db) && Keyed(keys, db)
    ensures ast.table in keys
    ensures match Execute(ast, field, keys, db)
            case None => ast.limit == Some(0) || forall row: Row :: !Qualifies(ast, row, keys, db)
            case Some(v) =>
              exists row: Row :: Qualifies(ast, row, keys, db) && Get(row, field) == v
                && forall other: Row | Qualifies(ast, other, keys, db) && other != row ::
                     ComesBefore(ast.orderBy, keys[ast.table], row, other)
  {
    hide Buildable, Sensible, Covers, Keyed, QueryMeans, Qualifies, ComesBefore;
    ResultIs(ast, keys, db);
    var nodes := QueryMeans(ast, keys, db, []);
    var rows := RowsOf(nodes);
    if nodes != [] {
      var row := rows[0];
      assert row in rows && Asked(ast, keys, db)(row);
      forall other: Row | Qualifies(ast, other, keys, db) && other != row
        ensures ComesBefore(ast.orderBy, keys[ast.table], row, other)
      {
        assert Asked(ast, keys, db)(other);
        if other in rows { var i :| 0 <= i < |rows| && rows[i] == other; }
      }
    } else {
      forall row: Row | Qualifies(ast, row, keys, db) ensures ast.limit == Some(0) {
        assert Asked(ast, keys, db)(row);
      }
    }
  }
}
