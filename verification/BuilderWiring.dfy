/** Every pipeline that the builder makes is wired soundly (builder/builder.go). */
module BuilderWiring {
  import opened Values
  import opened Seqs
  import opened Views
  import opened JoinUtils
  import opened Ast
  import opened ChainPush
  import opened SourceRules
  import opened JoinSpec
  import opened Pipeline
  import opened Database
  import opened Naming
  import opened Builder

  /** What a query has to meet beyond being buildable: in every correlation the keys mean the join in
      both directions, and no related subquery takes the relationship name of an EXISTS subquery. */
  ghost predicate Sensible(ast: AST, keys: Keys)
    requires Buildable(ast, keys)
    decreases SizeOf(ast), 1, 0
  {
    ChildrenFit(ast);
    && (Renamed(ast).Some? ==> forall q | q in ast.related :: RelName(q) !in Names(Renamed(ast).value))
    && ChildrenSensible(SizeOf(ast), ExistsChildren(Subqueries(Renamed(ast))), keys)
    && ChildrenSensible(SizeOf(ast), Dedupe(ast.related), keys)
  }

  ghost predicate ChildrenSensible(bound: nat, list: seq<CorrelatedSubquery>, keys: Keys)
    requires FitsIn(list, bound) && ChildrenBuildable(bound, list, keys)
    decreases bound, 0, |list|
  {
    list == [] || (ValidKeys(CorrelationOf(list[0])) && Sensible(list[0].subquery, keys)
                   && ChildrenSensible(bound, list[1..], keys))
  }

  function CorrelationOf(q: CorrelatedSubquery): Correlation {
    Correlation(q.parentField, q.childField, RelName(q))
  }

  // ----- names

  function NamesIn(list: seq<CorrelatedSubquery>): set<string> {
    if list == [] then {} else {RelName(list[0])} + NamesIn(list[1..])
  }

  /** The names of the list are new and different from each other. */
  ghost predicate NewNames(list: seq<CorrelatedSubquery>, names: set<string>)
    decreases |list|
  {
    list == [] || (RelName(list[0]) !in names && NewNames(list[1..], names + {RelName(list[0])}))
  }

  lemma {:induction false} NewNamesConcat(a: seq<CorrelatedSubquery>, b: seq<CorrelatedSubquery>, names: set<string>)
    requires NewNames(a, names) && NewNames(b, names + NamesIn(a))
    ensures NewNames(a + b, names) && NamesIn(a + b) == NamesIn(a) + NamesIn(b)
    decreases |a|
  {
    if a == [] {
      assert a + b == b && names + NamesIn(a) == names;
    } else {
      var more := names + {RelName(a[0])};
      assert names + NamesIn(a) == more + NamesIn(a[1..]);
      NewNamesConcat(a[1..], b, more);
      ConcatSplit(a, b);
    }
  }

  lemma {:induction false} ExistsConcat(a: seq<Condition>, b: seq<Condition>)
    requires AllExists(a) && AllExists(b)
    ensures ExistsChildren(a + b) == ExistsChildren(a) + ExistsChildren(b)
    decreases |a|
  {
    if a == [] {
      assert a + b == b;
    } else {
      ConcatSplit(a, b);
      ExistsConcat(a[1..], b);
    }
  }

  /** The EXISTS joins of a condition with distinct names make exactly the relationships it asks for. */
  lemma {:induction false} GatherNames(c: Condition, names: set<string>)
    requires DistinctNames(c) && Names(c) !! names
    ensures AllExists(Gather(c))
    ensures NewNames(ExistsChildren(Gather(c)), names) && NamesIn(ExistsChildren(Gather(c))) == Names(c)
    decreases c, 1
  {
    GatherFacts(c);
    match c
    case Simple(_, _, _) =>
    case Exists(q, _, flip, _) =>
      assert ExistsChildren([c][1..]) == [];
      if !flip { assert ExistsChildren([c]) == [q.(subquery := q.subquery.(limit := Some(EXISTS_LIMIT)))]; }
    case And(cs) => GatherAllNames(cs, names);
    case Or(cs) => GatherAllNames(cs, names);
  }

  lemma {:induction false} GatherAllNames(cs: seq<Condition>, names: set<string>)
    requires DistinctNamesOf(cs) && NamesOf(cs) !! names
    ensures AllExists(GatherAll(cs))
    ensures NewNames(ExistsChildren(GatherAll(cs)), names) && NamesIn(ExistsChildren(GatherAll(cs))) == NamesOf(cs)
    decreases cs, 0
  {
    GatherAllFacts(cs);
    if cs != [] {
      GatherNames(cs[0], names);
      GatherAllNames(cs[1..], names + Names(cs[0]));
      ExistsConcat(Gather(cs[0]), GatherAll(cs[1..]));
      NewNamesConcat(ExistsChildren(Gather(cs[0])), ExistsChildren(GatherAll(cs[1..])), names);
    }
  }

  lemma {:induction false} PutLastNames(list: seq<CorrelatedSubquery>, q: CorrelatedSubquery, names: set<string>)
    requires NewNames(list, names) && RelName(q) !in names
    ensures NewNames(PutLast(list, q), names)
    ensures forall r | r in PutLast(list, q) :: r in list || r == q
    decreases |list|
  {
    if list != [] {
      HeadTail(list);
      if RelName(list[0]) == RelName(q) {
        ConsMembers(q, list[1..]);
      } else {
        PutLastNames(list[1..], q, names + {RelName(list[0])});
        ConsMembers(list[0], PutLast(list[1..], q));
      }
    }
  }

  lemma {:induction false} DedupeNames(list: seq<CorrelatedSubquery>, names: set<string>)
    requires forall q | q in list :: RelName(q) !in names
    ensures NewNames(Dedupe(list), names)
    ensures forall q | q in Dedupe(list) :: q in list
    decreases |list|
  {
    if list != [] {
      var n := |list| - 1;
      assert list == list[..n] + [list[n]];
      DedupeNames(list[..n], names);
      PutLastNames(Dedupe(list[..n]), list[n], names);
    }
  }

  // ----- columns

  lemma {:induction false} KeyColumnsCover(list: seq<CorrelatedSubquery>)
    ensures forall q | q in list :: Columns(q.parentField) <= KeyColumns(list)
  {
    if list != [] {
      KeyColumnsCover(list[1..]);
      HeadTail(list);
    }
  }

  lemma {:induction false} GatheredColumnsCover(list: seq<Condition>)
    requires AllExists(list)
    ensures forall q | q in ExistsChildren(list) :: Columns(q.parentField) <= GatheredColumns(list)
  {
    if list != [] { GatheredColumnsCover(list[1..]); }
  }

  // ----- wiring

  ghost predicate FeedsOk(keys: Keys, feeds: seq<Feed>) {
    forall i | 0 <= i < |feeds| :: feeds[i].table in keys && Completes(feeds[i].conn.sort, keys[feeds[i].table])
  }

  ghost predicate WiredIn(p: Pipe, feeds: seq<Feed>, low: nat) {
    && Wired(p, Schemas(feeds), Splits(feeds))
    && forall k | k in Conns(p) :: low <= k < |feeds|
  }

  lemma {:induction false} WiredMore(p: Pipe, S: seq<Schema>, split: seq<set<string>>, S': seq<Schema>,
                                     split': seq<set<string>>)
    requires |S| == |split| && |S'| == |split'| && S <= S' && split <= split' && Wired(p, S, split)
    ensures Wired(p, S', split')
  {
    match p
    case Input(_) =>
    case Unary(_, input) => WiredMore(input, S, split, S', split');
    case JoinOf(parent, child, _) => WiredMore(parent, S, split, S', split'); WiredMore(child, S, split, S', split');
  }

  lemma {:induction false} WiredInMore(p: Pipe, feeds: seq<Feed>, more: seq<Feed>, low: nat)
    requires WiredIn(p, feeds, low) && feeds <= more
    ensures WiredIn(p, more, low)
    ensures Root(p) < |feeds| && Splits(more)[Root(p)] == Splits(feeds)[Root(p)]
  {
    assert Schemas(feeds) <= Schemas(more) && Splits(feeds) <= Splits(more);
    WiredShape(p, Schemas(feeds), Splits(feeds));
    WiredMore(p, Schemas(feeds), Splits(feeds), Schemas(more), Splits(more));
  }

  lemma UnaryWired(p: Pipe, op: Op, feeds: seq<Feed>, low: nat)
    requires WiredIn(p, feeds, low) && Root(p) < |feeds| && OpFits(op, RelNames(p), Splits(feeds)[Root(p)])
    ensures WiredIn(Unary(op, p), feeds, low)
  {
  }

  lemma JoinWired(p: Pipe, child: Pipe, j: Correlation, feeds: seq<Feed>, more: seq<Feed>, low: nat)
    requires WiredIn(p, feeds, low) && feeds <= more && WiredIn(child, more, |feeds|) && low <= |feeds|
    requires ValidKeys(j) && j.rel !in RelNames(p)
    requires Root(p) < |feeds| && Columns(j.parentKey) <= Splits(feeds)[Root(p)]
    requires Root(child) < |more| && Columns(j.childKey) <= Splits(more)[Root(child)]
    ensures WiredIn(JoinOf(p, child, j), more, low)
    ensures Splits(more)[Root(p)] == Splits(feeds)[Root(p)]
  {
    WiredInMore(p, feeds, more, low);
    forall k | k in Conns(p) && k in Conns(child) ensures false {
    }
  }

  /** Joining a list of children to a soundly wired parent keeps it sound. */
  lemma {:induction false} JoinAllIsWired(bound: nat, list: seq<CorrelatedSubquery>, keys: Keys, parent: Pipe,
                                          feeds: seq<Feed>, low: nat)
    requires FitsIn(list, bound) && ChildrenBuildable(bound, list, keys) && ChildrenSensible(bound, list, keys)
    requires FeedsOk(keys, feeds) && WiredIn(parent, feeds, low) && low <= |feeds| && Root(parent) < |feeds|
    requires NewNames(list, RelNames(parent))
    requires forall q | q in list :: Columns(q.parentField) <= Splits(feeds)[Root(parent)]
    ensures var (p, grown) := JoinAll(bound, list, keys, parent, feeds);
            && feeds <= grown && FeedsOk(keys, grown) && WiredIn(p, grown, low)
            && Root(p) == Root(parent) && RelNames(p) == RelNames(parent) + NamesIn(list)
            && Splits(grown)[Root(p)] == Splits(feeds)[Root(parent)]
    decreases bound, 0, |list|
  {
    if list != [] {
      hide WiredIn, FeedsOk, ValidKeys, Wired, Completes, Buildable, Sensible, Build, Splits;
      var q := list[0];
      var j := CorrelationOf(q);
      HeadTail(list);
      BuildIsWired(q.subquery, keys, q.childField, feeds);
      var (child, grown) := Build(q.subquery, keys, q.childField, feeds);
      JoinWired(parent, child, j, feeds, grown, low);
      JoinAllIsWired(bound, list[1..], keys, JoinOf(parent, child, j), grown, low);
    }
  }

  lemma ChildrenAre(ast: AST, keys: Keys)
    requires Buildable(ast, keys) && Sensible(ast, keys)
    ensures FitsIn(ExistsChildren(Subqueries(Renamed(ast))), SizeOf(ast)) && FitsIn(Dedupe(ast.related), SizeOf(ast))
    ensures ChildrenBuildable(SizeOf(ast), ExistsChildren(Subqueries(Renamed(ast))), keys)
            && ChildrenBuildable(SizeOf(ast), Dedupe(ast.related), keys)
    ensures ChildrenSensible(SizeOf(ast), ExistsChildren(Subqueries(Renamed(ast))), keys)
            && ChildrenSensible(SizeOf(ast), Dedupe(ast.related), keys)
    ensures ast.table in keys
    ensures Renamed(ast).Some? ==>
              DistinctNames(Renamed(ast).value) && forall q | q in ast.related ::
                RelName(q) !in Names(Renamed(ast).value)
  {
    ChildrenFit(ast);
    if ast.where.Some? { AliasesDistinct(ast.where.value); }
  }

  lemma {:induction false} RowsAreWired(ast: AST, keys: Keys, partitionKey: Key, feeds: seq<Feed>)
    requires Buildable(ast, keys) && Sensible(ast, keys) && FeedsOk(keys, feeds)
    ensures var (p, grown) := BuildRows(ast, keys, partitionKey, feeds);
            && feeds <= grown && |feeds| < |grown| && FeedsOk(keys, grown) && WiredIn(p, grown, |feeds|)
            && Root(p) == |feeds| && Splits(grown)[Root(p)]
              == CollectSplitEditKeys(Renamed(ast), ast.related, partitionKey)
            && RelNames(p) == if Renamed(ast).Some? then Names(Renamed(ast).value) else {}
    decreases SizeOf(ast), 1, 0
  {
    hide WiredIn, FeedsOk, Wired, Completes, Buildable, Sensible, ChildrenBuildable, ChildrenSensible, JoinAll,
         Renamed, ExistsChildren, Subqueries, NewNames, NamesIn, DistinctNames;
    ChildrenAre(ast, keys);
    var where, k := Renamed(ast), |feeds|;
    var f0 := feeds + [Feed(ast.table, Connect(ast, keys[ast.table], partitionKey))];
    var checks := ExistsChildren(Subqueries(where));
    SourceWired(ast, keys, partitionKey, feeds);
    if ast.start.Some? { UnaryWired(Input(k), SkipTo(ast.start.value.row, ast.start.value.exclusive), f0, k); }
    WhereNames(where);
    GatheredColumnsCover(Subqueries(where));
    JoinAllIsWired(SizeOf(ast), checks, keys, Skipped(ast, Input(k)), f0, k);
    var (joined, f1) := JoinAll(SizeOf(ast), checks, keys, Skipped(ast, Input(k)), f0);
    if where.Some? { UnaryWired(joined, Where(where.value), f1, k); }
    if ast.limit.Some? { UnaryWired(Checked(ast, joined), Limit(ast.limit.value, partitionKey), f1, k); }
  }

  /** Every query that meets the naming and key conditions is built into a pipeline that is wired
      soundly: no subquery shares a relationship, no connection is used twice, and every join key and
      partition key is among the columns whose edits the feeding connection has split. */
  lemma {:induction false} BuildIsWired(ast: AST, keys: Keys, partitionKey: Key, feeds: seq<Feed>)
    requires Buildable(ast, keys) && Sensible(ast, keys) && FeedsOk(keys, feeds)
    ensures var (p, grown) := Build(ast, keys, partitionKey, feeds);
            && feeds <= grown && |feeds| < |grown| && FeedsOk(keys, grown) && WiredIn(p, grown, |feeds|)
            && Root(p) == |feeds| && Columns(partitionKey) <= Splits(grown)[Root(p)]
    decreases SizeOf(ast), 2, 0
  {
    hide WiredIn, FeedsOk, Wired, Completes, Buildable, Sensible, ChildrenBuildable, ChildrenSensible, JoinAll,
         BuildRows, Renamed, NewNames, DistinctNames;
    ChildrenAre(ast, keys);
    var (rows, f1) := BuildRows(ast, keys, partitionKey, feeds);
    RowsAreWired(ast, keys, partitionKey, feeds);
    RelatedNames(ast, Renamed(ast));
    JoinAllIsWired(SizeOf(ast), Dedupe(ast.related), keys, rows, f1, |feeds|);
  }

  lemma SourceWired(ast: AST, keys: Keys, partitionKey: Key, feeds: seq<Feed>)
    requires Buildable(ast, keys) && FeedsOk(keys, feeds)
    ensures var conn, k := Connect(ast, keys[ast.table], partitionKey), |feeds|;
            var f0 := feeds + [Feed(ast.table, conn)];
            && FeedsOk(keys, f0) && WiredIn(Input(k), f0, k) && Splits(f0)[k] == conn.splitEditKeys
  {
    OrderIsComplete(keys[ast.table], ast.orderBy);
    ComparatorIsTotalOrder(CompleteOrder(keys[ast.table], ast.orderBy));
  }

  lemma WhereNames(where: Option<Condition>)
    requires where.Some? ==> DistinctNames(where.value)
    ensures NewNames(ExistsChildren(Subqueries(where)), {})
    ensures NamesIn(ExistsChildren(Subqueries(where))) == if where.Some? then Names(where.value) else {}
  {
    if where.Some? { GatherNames(where.value, {}); }
  }

  lemma RelatedNames(ast: AST, where: Option<Condition>)
    requires where.Some? ==> forall q | q in ast.related :: RelName(q) !in Names(where.value)
    ensures NewNames(Dedupe(ast.related), if where.Some? then Names(where.value) else {})
    ensures forall q | q in Dedupe(ast.related) :: Columns(q.parentField) <= KeyColumns(ast.related)
  {
    DedupeNames(ast.related, if where.Some? then Names(where.value) else {});
    KeyColumnsCover(ast.related);
  }
}
