/**
  The result of a query, said row by row: which rows it has, in which order, and which children each of them has
  in each relationship.
 */
module Results {
  import opened Values
  import opened Seqs
  import opened RowOrder
  import opened Views
  import opened JoinUtils
  import opened Ast
  import opened Fetching
  import opened TakeSpec
  import opened TakeRules
  import opened TakeUnion
  import opened JoinSpec
  import opened Pipeline
  import opened Database
  import opened Builder
  import opened BuilderWiring
  import opened Meaning
  import opened Truth
  import opened Hydration
  import opened SourceRules
  import opened Naming
  import opened ChainPush

  function RowsOf(s: seq<Node>): seq<Row> {
    seq(|s|, i requires 0 <= i < |s| => s[i].row)
  }

  /** The rows are those that are wanted, in order; with a limit, the first ones: no more than the limit, all if
      there are fewer, and every other wanted row comes after them. */
  ghost predicate FirstOfThem(rows: seq<Row>, limit: Option<nat>, orderBy: Ordering, key: Key, wanted: Row -> bool) {
    && (forall i, j | 0 <= i < j < |rows| :: ComesBefore(orderBy, key, rows[i], rows[j]))
    && (forall r | r in rows :: wanted(r))
    && (limit.Some? ==> |rows| <= limit.value)
    && (limit.None? || |rows| < limit.value ==> forall r | wanted(r) :: r in rows)
    && forall r | wanted(r) && r !in rows :: forall x | x in rows :: ComesBefore(orderBy, key, x, r)
  }

  ghost function Asked(ast: AST, keys: Keys, db: Tables): Row -> bool {
    (row: Row) => Qualifies(ast, row, keys, db)
  }

  /** The rows of the subquery that join with the parent. */
  ghost function ChildrenAsked(q: CorrelatedSubquery, parent: Row, keys: Keys, db: Tables): Row -> bool
    requires |q.parentField| == |q.childField|
  {
    (row: Row) => Qualifies(q.subquery, row, keys, db) && IsJoinMatch(parent, q.parentField, row, q.childField)
  }

  // ----- windows

  function Limited(limit: Option<nat>, s: seq<Node>): seq<Node> {
    if limit.Some? && limit.value < |s| then s[..limit.value] else s
  }

  lemma RowsOfMembers(s: seq<Node>)
    ensures forall x :: x in RowsOf(s) <==> exists n :: n in s && n.row == x
  {
    forall n | n in s ensures n.row in RowsOf(s) {
      var i :| 0 <= i < |s| && s[i] == n;
      assert RowsOf(s)[i] == n.row;
    }
    forall x | x in RowsOf(s) ensures exists n :: n in s && n.row == x {
      var i :| 0 <= i < |s| && RowsOf(s)[i] == x;
      assert s[i] in s;
    }
  }

  /** A row that the limit leaves out comes after all that are shown, and the limit is reached. */
  lemma LeftOut(cmp: Comparator, s: seq<Node>, limit: Option<nat>, n: Node)
    requires Sorted(cmp, s) && n in s && n.row !in RowsOf(Limited(limit, s))
    ensures limit.Some? && |Limited(limit, s)| == limit.value
    ensures forall m | m in Limited(limit, s) :: cmp(m.row, n.row) < 0
  {
    var w := Limited(limit, s);
    var k :| 0 <= k < |s| && s[k] == n;
    RowsOfMembers(w);
    forall i | 0 <= i < |w| ensures w[i] in w && s[i] == w[i] {
    }
    assert k >= |w|;
  }

  lemma FirstOfSorted(ast: AST, keys: Keys, s: seq<Node>, limit: Option<nat>, wanted: Row -> bool)
    requires ast.table in keys && TotalOrder(OrderOf(ast, keys)) && Sorted(OrderOf(ast, keys), s)
    requires (forall n | n in s :: wanted(n.row)) && forall r | wanted(r) :: exists n :: n in s && n.row == r
    ensures FirstOfThem(RowsOf(Limited(limit, s)), limit, ast.orderBy, keys[ast.table], wanted)
  {
    hide ComesBefore, OrderOf, TotalOrder;
    var cmp, w := OrderOf(ast, keys), Limited(limit, s);
    var rows := RowsOf(w);
    forall a, b ensures cmp(a, b) < 0 <==> ComesBefore(ast.orderBy, keys[ast.table], a, b) {
      OrderOfMeans(ast, keys, a, b);
    }
    RowsOfMembers(w);
    forall n | n in w ensures n in s {
    }
    forall r | wanted(r) && r !in rows
      ensures limit.Some? && |rows| == limit.value && forall x | x in rows :: cmp(x, r) < 0
    {
      var n :| n in s && n.row == r;
      LeftOut(cmp, s, limit, n);
    }
    forall i, j | 0 <= i < j < |rows| ensures cmp(rows[i], rows[j]) < 0 {
      assert rows[i] == s[i].row && rows[j] == s[j].row;
    }
  }

  /** Of one partition, what is shown is its window. */
  lemma PartShown(cmp: Comparator, limit: nat, key: Key, s: seq<Node>, k: PartitionKey)
    requires TotalOrder(cmp) && Sorted(cmp, s) && NoNulls(k)
    ensures Filtered(Shown(limit, key, Askable(), s), KeyIs(key, k)) == Limited(Some(limit), Part(s, key, k))
  {
    hide TotalOrder;
    var shown, part := Shown(limit, key, Askable(), s), Part(s, key, k);
    var a, b := Filtered(shown, KeyIs(key, k)), Limited(Some(limit), part);
    FilteredFacts(cmp, s, InWindow(limit, key, Askable(), s));
    FilteredFacts(cmp, shown, KeyIs(key, k));
    FilteredFacts(cmp, s, KeyIs(key, k));
    assert b == Window(limit, part);
    forall x ensures x in a <==> x in b {
      if x in b { assert x in part; }
    }
    SortedUnique(cmp, a, b);
  }

  /** Without a partition key the whole list is one partition. */
  lemma RootShown(cmp: Comparator, limit: nat, s: seq<Node>)
    requires TotalOrder(cmp) && Sorted(cmp, s)
    ensures Shown(limit, [], Askable(), s) == Limited(Some(limit), s)
  {
    hide TotalOrder, Sorted, Shown;
    PartShown(cmp, limit, [], s, []);
    forall n: Node ensures KeyIs([], [])(n) {
    }
    FilteredAll(s, KeyIs([], []));
    FilteredAll(Shown(limit, [], Askable(), s), KeyIs([], []));
  }

  // ----- the rows of a result

  lemma SameRows(a: seq<Node>, b: seq<Node>)
    requires |a| == |b| && forall i | 0 <= i < |a| :: a[i].row == b[i].row
    ensures RowsOf(a) == RowsOf(b)
  {
  }

  /** The rows of a query's result are the first ones, in its order, of those that qualify. */
  lemma ResultIs(ast: AST, keys: Keys, db: Tables)
    requires Buildable(ast, keys) && Sensible(ast, keys) && Covers(keys, db) && Keyed(keys, db)
    ensures ast.table in keys
    ensures FirstOfThem(RowsOf(QueryMeans(ast, keys, db, [])), ast.limit, ast.orderBy, keys[ast.table],
                        Asked(ast, keys, db))
  {
    hide Sensible, Qualifies, AttachAll, Keyed, TotalOrder, Sorted, Shown, OrderOf, FirstOfThem, BeforeLimit;
    ChildrenFit(ast);
    RowsBeforeLimit(ast, keys, db);
    var s, rows, list := BeforeLimit(ast, keys, db), RowsMean(ast, keys, db, []), QueryMeans(ast, keys, db, []);
    ShownRows(ast, keys, db, []);
    if ast.limit.Some? { RootShown(OrderOf(ast, keys), ast.limit.value, s); }
    assert rows == Limited(ast.limit, s);
    AttachAllRows(SizeOf(ast), Dedupe(ast.related), keys, db, rows);
    SameRows(list, rows);
    FirstOfSorted(ast, keys, s, ast.limit, Asked(ast, keys, db));
  }

  lemma ShownRows(ast: AST, keys: Keys, db: Tables, partitionKey: Key)
    requires Buildable(ast, keys) && Covers(keys, db)
    ensures RowsMean(ast, keys, db, partitionKey) ==
            if ast.limit.Some? then Shown(ast.limit.value, partitionKey, Askable(), BeforeLimit(ast, keys, db))
            else BeforeLimit(ast, keys, db)
  {
  }

  // ----- the relationships

  /** No later subquery of the list has the name. */
  predicate LastNamed(list: seq<CorrelatedSubquery>, k: nat) {
    k < |list| && forall i | k < i < |list| :: RelName(list[i]) != RelName(list[k])
  }

  lemma {:induction false} PutLastHas(list: seq<CorrelatedSubquery>, q: CorrelatedSubquery)
    ensures q in PutLast(list, q)
    ensures forall r | r in list && RelName(r) != RelName(q) :: r in PutLast(list, q)
  {
    if list != [] {
      HeadTail(list);
      if RelName(list[0]) == RelName(q) {
        ConsMembers(q, list[1..]);
      } else {
        PutLastHas(list[1..], q);
        ConsMembers(list[0], PutLast(list[1..], q));
      }
    }
  }

  /** Of the related subqueries with one name the last is built. */
  lemma {:induction false} DedupeHas(list: seq<CorrelatedSubquery>, k: nat)
    requires LastNamed(list, k)
    ensures list[k] in Dedupe(list)
  {
    var n := |list| - 1;
    PutLastHas(Dedupe(list[..n]), list[n]);
    if k < n {
      assert LastNamed(list[..n], k) && list[..n][k] == list[k];
      DedupeHas(list[..n], k);
    }
  }

  lemma {:induction false} LastOf(list: seq<CorrelatedSubquery>, i: nat) returns (k: nat)
    requires i < |list|
    ensures LastNamed(list, k) && RelName(list[k]) == RelName(list[i])
    decreases |list| - i
  {
    if j :| i < j < |list| && RelName(list[j]) == RelName(list[i]) { k := LastOf(list, j); } else { k := i; }
  }

  lemma {:induction false} NamesInMeans(list: seq<CorrelatedSubquery>)
    ensures forall s :: s in NamesIn(list) <==> exists q :: q in list && RelName(q) == s
  {
    if list != [] {
      NamesInMeans(list[1..]);
      HeadTail(list);
    }
  }

  lemma DedupeNamesAre(list: seq<CorrelatedSubquery>)
    ensures forall s :: s in NamesIn(Dedupe(list)) <==> exists q :: q in list && RelName(q) == s
  {
    NamesInMeans(Dedupe(list));
    DedupeNames(list, {});
    forall q | q in list ensures exists r :: r in Dedupe(list) && RelName(r) == RelName(q) {
      var i :| 0 <= i < |list| && list[i] == q;
      var k := LastOf(list, i);
      DedupeHas(list, k);
    }
  }

  /** A subquery that is built: of those with its name the last. */
  lemma BuiltRelated(ast: AST, keys: Keys, k: nat)
    requires Buildable(ast, keys) && Sensible(ast, keys) && LastNamed(ast.related, k)
    ensures var q := ast.related[k];
            |q.parentField| == |q.childField| && Buildable(q.subquery, keys) && Sensible(q.subquery, keys)
    ensures SizeOf(ast.related[k].subquery) < SizeOf(ast)
  {
    hide Buildable, Sensible;
    var list := Dedupe(ast.related);
    ChildrenAre(ast, keys);
    DedupeHas(ast.related, k);
    var i :| 0 <= i < |list| && list[i] == ast.related[k];
    ChildSensible(SizeOf(ast), list, keys, i);
    ChildrenLengths(SizeOf(ast), list, keys, i);
  }

  lemma {:induction false} ChildrenLengths(bound: nat, list: seq<CorrelatedSubquery>, keys: Keys, i: nat)
    requires FitsIn(list, bound) && ChildrenBuildable(bound, list, keys) && i < |list|
    ensures |list[i].parentField| == |list[i].childField|
    decreases i
  {
    if i > 0 { ChildrenLengths(bound, list[1..], keys, i - 1); }
  }

  /** In every relationship that a related subquery names, each node of a result has the nodes of that
      subquery's own result that join with it; of subqueries with one name the last counts. */
  lemma RelatedAre(ast: AST, keys: Keys, db: Tables, partitionKey: Key, n: Node, k: nat)
    requires Buildable(ast, keys) && Sensible(ast, keys) && Covers(keys, db)
    requires n in QueryMeans(ast, keys, db, partitionKey) && LastNamed(ast.related, k)
    ensures var q := ast.related[k];
            var name := if q.subquery.alias != "" then q.subquery.alias else q.subquery.table;
            && RelName(q) == name && |q.parentField| == |q.childField| && Buildable(q.subquery, keys) && name in n.rels
            && n.rels[name] == ChildrenOf(CorrelationOf(q), QueryMeans(q.subquery, keys, db, q.childField), n.row)
  {
    hide Buildable, Sensible, AttachAll, Attach, ChildrenOf, RowsMean;
    BuiltRelated(ast, keys, k);
    ChildrenAre(ast, keys);
    RelatedNames(ast, Renamed(ast));
    DedupeHas(ast.related, k);
    var list, rows := Dedupe(ast.related), RowsMean(ast, keys, db, partitionKey);
    var i :| 0 <= i < |list| && list[i] == ast.related[k];
    var names := if Renamed(ast).Some? then Names(Renamed(ast).value) else {};
    AttachAllRels(SizeOf(ast), list, keys, db, rows, names, i);
    AttachAllRows(SizeOf(ast), list, keys, db, rows);
    var x :| 0 <= x < |rows| && AttachAll(SizeOf(ast), list, keys, db, rows)[x] == n;
  }

  /** And it has no other relationships than those and the ones that its EXISTS conditions ask for. */
  lemma RelationshipsAre(ast: AST, keys: Keys, db: Tables, partitionKey: Key, n: Node)
    requires Buildable(ast, keys) && Sensible(ast, keys) && Covers(keys, db)
    requires n in QueryMeans(ast, keys, db, partitionKey)
    ensures forall s :: s in n.rels <==>
              (exists q :: q in ast.related && RelName(q) == s) || (ast.where.Some? && s in Names(Renamed(ast).value))
  {
    hide Buildable, Sensible, AttachAll, RowsMean, Renamed;
    ChildrenAre(ast, keys);
    var list, rows := Dedupe(ast.related), RowsMean(ast, keys, db, partitionKey);
    AttachAllKeys(SizeOf(ast), list, keys, db, rows);
    DedupeNamesAre(ast.related);
    var i :| 0 <= i < |rows| && QueryMeans(ast, keys, db, partitionKey)[i] == n;
    assert rows[i] in rows;
    RowsMeanKeys(ast, keys, db, partitionKey, rows[i]);
  }

  lemma {:induction false} AttachAllKeys(bound: nat, list: seq<CorrelatedSubquery>, keys: Keys, db: Tables,
                                         s: seq<Node>)
    requires FitsIn(list, bound) && ChildrenBuildable(bound, list, keys) && Covers(keys, db)
    ensures var t := AttachAll(bound, list, keys, db, s);
            |t| == |s| && forall i | 0 <= i < |s| :: t[i].rels.Keys == s[i].rels.Keys + NamesIn(list)
    decreases |list|
  {
    hide Buildable, QueryMeans, ChildrenOf;
    if list != [] {
      var next := Joined(CorrelationOf(list[0]), s, QueryMeans(list[0].subquery, keys, db, list[0].childField));
      AttachAllKeys(bound, list[1..], keys, db, next);
      forall i | 0 <= i < |s| ensures next[i].rels.Keys == s[i].rels.Keys + {RelName(list[0])} {
      }
    }
  }

  lemma {:induction false} PlaceMembers(cmp: Comparator, s: seq<Node>, n: Node)
    ensures forall x :: x in Place(cmp, s, n) <==> x in s || x == n
  {
    if s == [] || cmp(n.row, s[0].row) < 0 {
      ConsMembers(n, s);
    } else {
      PlaceMembers(cmp, s[1..], n);
      HeadTail(s);
      ConsMembers(s[0], Place(cmp, s[1..], n));
    }
  }

  lemma {:induction false} SortMembers(cmp: Comparator, s: seq<Node>)
    ensures forall x :: x in SortBy(cmp, s) <==> x in s
  {
    if s != [] {
      SortMembers(cmp, s[1..]);
      PlaceMembers(cmp, SortBy(cmp, s[1..]), s[0]);
      HeadTail(s);
    }
  }

  lemma CursorRowsAreBare(ast: AST, keys: Keys, db: Tables)
    requires ast.table in keys && ast.table in db
    ensures forall n | n in FromCursor(ast, keys, SortBy(OrderOf(ast, keys), Leaves(db[ast.table]))) :: n.rels == map[]
  {
    var cmp, s := OrderOf(ast, keys), Leaves(db[ast.table]);
    LeafMembers(db[ast.table]);
    SortMembers(cmp, s);
    if ast.start.Some? {
      FilteredMembers(SortBy(cmp, s), OfRow(Present(cmp, ast.start.value.row, ast.start.value.exclusive)));
    }
  }

  lemma RowsMeanKeys(ast: AST, keys: Keys, db: Tables, partitionKey: Key, m: Node)
    requires Buildable(ast, keys) && Sensible(ast, keys) && Covers(keys, db)
             && m in RowsMean(ast, keys, db, partitionKey)
    ensures m.rels.Keys == if ast.where.Some? then Names(Renamed(ast).value) else {}
  {
    hide Buildable, Sensible, AttachAll, Satisfies;
    ChildrenAre(ast, keys);
    var checks := ExistsChildren(Subqueries(Renamed(ast)));
    var all := SortBy(OrderOf(ast, keys), Leaves(db[ast.table]));
    var s := FromCursor(ast, keys, all);
    var t := AttachAll(SizeOf(ast), checks, keys, db, s);
    AttachAllKeys(SizeOf(ast), checks, keys, db, s);
    WhereNames(Renamed(ast));
    CursorRowsAreBare(ast, keys, db);
    ShownRows(ast, keys, db, partitionKey);
    var b := BeforeLimit(ast, keys, db);
    if ast.limit.Some? { FilteredMembers(b, InWindow(ast.limit.value, partitionKey, Askable(), b)); }
    if ast.where.Some? { FilteredMembers(t, Satisfies(Renamed(ast).value)); }
    assert m in b && m in t;
    var i :| 0 <= i < |t| && t[i] == m;
    assert s[i] in s;
  }

  // ----- the rows of a relationship

  lemma {:induction false} FilteredRows(a: seq<Node>, b: seq<Node>, keep: Node -> bool)
    requires |a| == |b| && (forall i | 0 <= i < |a| :: a[i].row == b[i].row)
    requires forall x: Node, y: Node | x.row == y.row :: keep(x) == keep(y)
    ensures RowsOf(Filtered(a, keep)) == RowsOf(Filtered(b, keep))
  {
    if a != [] {
      FilteredRows(a[1..], b[1..], keep);
      if keep(a[0]) {
        RowsOfCons(a[0], Filtered(a[1..], keep));
        RowsOfCons(b[0], Filtered(b[1..], keep));
      }
    }
  }

  lemma RowsOfCons(n: Node, s: seq<Node>)
    ensures RowsOf([n] + s) == [n.row] + RowsOf(s)
  {
  }

  /** The window of a parent's children: a limit counts for each parent by itself. */
  lemma ChildrenShown(cmp: Comparator, limit: nat, q: CorrelatedSubquery, s: seq<Node>, parent: Row)
    requires TotalOrder(cmp) && Sorted(cmp, s) && |q.parentField| == |q.childField|
    ensures var of := ChildOf(CorrelationOf(q), parent);
            Filtered(Shown(limit, q.childField, Askable(), s), of) == Limited(Some(limit), Filtered(s, of))
  {
    hide TotalOrder, Sorted, Shown, Filtered;
    var j, k := CorrelationOf(q), KeyOf(q.parentField, parent);
    var of, shown := ChildOf(j, parent), Shown(limit, q.childField, Askable(), s);
    forall n: Node ensures of(n) <==> NoNulls(KeyOf(q.childField, n.row)) && KeyIs(q.childField, k)(n) {
      MatchIsKey(j, parent, n.row);
    }
    if NoNulls(k) {
      FilteredSame(shown, of, KeyIs(q.childField, k));
      FilteredSame(s, of, KeyIs(q.childField, k));
      PartShown(cmp, limit, q.childField, s, k);
    } else {
      FilteredNone(shown, of);
      FilteredNone(s, of);
    }
  }

  /** The children of a parent in a relationship are the first ones, in the subquery's order and up to its limit, of
      the rows that qualify and join with the parent. */
  lemma ChildRowsAre(q: CorrelatedSubquery, keys: Keys, db: Tables, parent: Row)
    requires |q.parentField| == |q.childField| && Buildable(q.subquery, keys) && Sensible(q.subquery, keys)
    requires Covers(keys, db) && Keyed(keys, db)
    ensures q.subquery.table in keys
    ensures FirstOfThem(RowsOf(ChildrenOf(CorrelationOf(q), QueryMeans(q.subquery, keys, db, q.childField), parent)),
                        q.subquery.limit, q.subquery.orderBy, keys[q.subquery.table],
                          ChildrenAsked(q, parent, keys, db))
  {
    hide Buildable, Sensible, Qualifies, Keyed, TotalOrder, Sorted, Shown, OrderOf, FirstOfThem, BeforeLimit, RowsMean,
         QueryMeans, IsJoinMatch, Filtered, Covers;
    var sub, of := q.subquery, ChildOf(CorrelationOf(q), parent);
    RowsBeforeLimit(sub, keys, db);
    ShownRows(sub, keys, db, q.childField);
    ListRows(q, keys, db);
    var s, shown, list := BeforeLimit(sub, keys, db), RowsMean(sub, keys, db, q.childField), ChildList(q, keys, db);
    FilteredRows(list, shown, of);
    if sub.limit.Some? { ChildrenShown(OrderOf(sub, keys), sub.limit.value, q, s, parent); }
    assert Filtered(shown, of) == Limited(sub.limit, Filtered(s, of));
    FilteredFacts(OrderOf(sub, keys), s, of);
    FirstOfSorted(sub, keys, Filtered(s, of), sub.limit, ChildrenAsked(q, parent, keys, db));
  }

  // ----- the rows are determined

  ghost function Members(s: seq<Row>): set<Row> {
    set r | r in s
  }

  lemma {:induction false} AtMost(s: seq<Row>)
    ensures |Members(s)| <= |s|
    ensures (forall i, j | 0 <= i < j < |s| :: s[i] != s[j]) ==> |Members(s)| == |s|
  {
    if s != [] {
      var rest := s[1..];
      HeadTail(s);
      AtMost(rest);
      assert Members(s) == Members(rest) + {s[0]};
      if forall i, j | 0 <= i < j < |s| :: s[i] != s[j] {
        forall i | 0 <= i < |rest| ensures rest[i] != s[0] {
        }
        assert s[0] !in Members(rest);
        forall i, j | 0 <= i < j < |rest| ensures rest[i] != rest[j] {
          assert rest[i] == s[i + 1] && rest[j] == s[j + 1];
        }
      }
    }
  }

  lemma Longer(a: seq<Row>, b: seq<Row>, x: Row)
    requires (forall i, j | 0 <= i < j < |b| :: b[i] != b[j]) && (forall r | r in b :: r in a) && x in a && x !in b
    ensures |b| < |a|
  {
    AtMost(a);
    AtMost(b);
    assert Members(b) + {x} <= Members(a);
    SubsetSize(Members(b) + {x}, Members(a));
  }

  lemma {:induction false} SubsetSize(x: set<Row>, y: set<Row>)
    requires x <= y
    ensures |x| <= |y|
    decreases x
  {
    if x != {} {
      var e :| e in x;
      SubsetSize(x - {e}, y - {e});
    }
  }

  /** What FirstOfThem says determines the rows and their order. */
  lemma FirstUnique(ast: AST, keys: Keys, a: seq<Row>, b: seq<Row>, limit: Option<nat>, wanted: Row -> bool)
    requires ast.table in keys
    requires FirstOfThem(a, limit, ast.orderBy, keys[ast.table], wanted)
    requires FirstOfThem(b, limit, ast.orderBy, keys[ast.table], wanted)
    ensures a == b
  {
    hide FirstOfThem, OrderOf, ComesBefore, TotalOrder;
    var cmp := OrderOf(ast, keys);
    OrderTotal(ast, keys);
    InOrder(ast, keys, a, limit, wanted);
    InOrder(ast, keys, b, limit, wanted);
    forall x ensures x in a <==> x in b {
      if x in a && x !in b { NoneMissing(ast, keys, a, b, limit, wanted, x); }
      if x in b && x !in a { NoneMissing(ast, keys, b, a, limit, wanted, x); }
    }
    LeafMembers(a);
    LeafMembers(b);
    forall n ensures n in Leaves(a) <==> n in Leaves(b) {
      assert n in Leaves(a) ==> n == Leaf(n.row);
      assert n in Leaves(b) ==> n == Leaf(n.row);
    }
    SortedUnique(cmp, Leaves(a), Leaves(b));
    assert RowsOf(Leaves(a)) == a && RowsOf(Leaves(b)) == b;
  }

  lemma OrderTotal(ast: AST, keys: Keys)
    requires ast.table in keys
    ensures TotalOrder(OrderOf(ast, keys))
  {
    ComparatorIsTotalOrder(CompleteOrder(keys[ast.table], ast.orderBy));
  }

  lemma InOrder(ast: AST, keys: Keys, a: seq<Row>, limit: Option<nat>, wanted: Row -> bool)
    requires ast.table in keys && FirstOfThem(a, limit, ast.orderBy, keys[ast.table], wanted)
    ensures Sorted(OrderOf(ast, keys), Leaves(a)) && forall i, j | 0 <= i < j < |a| :: a[i] != a[j]
  {
    hide ComesBefore, OrderOf, TotalOrder;
    OrderTotal(ast, keys);
    forall i, j | 0 <= i < j < |a| ensures OrderOf(ast, keys)(Leaves(a)[i].row, Leaves(a)[j].row) < 0 && a[i] != a[j] {
      OrderOfMeans(ast, keys, a[i], a[j]);
      OrderIrreflexive(OrderOf(ast, keys), a[i]);
    }
  }

  lemma OrderIrreflexive(cmp: Comparator, r: Row)
    requires TotalOrder(cmp)
    ensures cmp(r, r) == 0
  {
  }

  lemma NoneMissing(ast: AST, keys: Keys, a: seq<Row>, b: seq<Row>, limit: Option<nat>, wanted: Row -> bool, x: Row)
    requires ast.table in keys
    requires FirstOfThem(a, limit, ast.orderBy, keys[ast.table], wanted)
    requires FirstOfThem(b, limit, ast.orderBy, keys[ast.table], wanted)
    ensures x in a ==> x in b
  {
    hide ComesBefore, OrderOf;
    if x in a && x !in b {
      InOrder(ast, keys, b, limit, wanted);
      if forall y | y in b :: y in a {
        Longer(a, b, x);
      } else {
        var y :| y in b && y !in a;
        OrderOfMeans(ast, keys, x, y);
      }
    }
  }
}
