/**
  The rows that a query is about, in plain logic: a condition is true or false of a row, and a
  subquery asks whether some matching row exists. The query's result, which is made of joins,
  relationships and windows, is shown to be about exactly these rows.
 */
module Truth {
  import opened Values
  import opened RowOrder
  import opened Seqs
  import opened Views
  import opened JoinUtils
  import opened Ast
  import opened FilterChain
  import opened SourceRules
  import opened TakeSpec
  import opened TakeRules
  import opened TakeUnion
  import opened JoinSpec
  import opened Pipeline
  import opened Database
  import opened Naming
  import opened Builder
  import opened BuilderWiring
  import opened Meaning

  // ----- the logic

  /** The row is one that the query is about: in the table, from the cursor on, and the condition is true of it. */
  ghost predicate Qualifies(ast: AST, row: Row, keys: Keys, db: Tables)
    decreases ast
  {
    && ast.table in keys && ast.table in db && row in db[ast.table]
    && (ast.start.Some? ==> FromBound(ast, keys[ast.table], ast.start.value, row))
    && (ast.where.Some? ==> True(ast.where.value, row, keys, db))
  }

  /** The row comes after the cursor, or is at it and the cursor is not exclusive. */
  ghost predicate FromBound(ast: AST, primaryKey: Key, bound: Bound, row: Row) {
    ComesBefore(ast.orderBy, primaryKey, bound.row, row)
    || (!bound.exclusive && !ComesBefore(ast.orderBy, primaryKey, row, bound.row))
  }

  /** Some row of the subquery joins with the row. */
  ghost predicate SomeMatch(q: CorrelatedSubquery, row: Row, keys: Keys, db: Tables)
    decreases q
  {
    |q.parentField| == |q.childField|
    && exists child: Row :: Qualifies(q.subquery, child, keys, db)
                            && IsJoinMatch(row, q.parentField, child, q.childField)
  }

  ghost predicate True(c: Condition, row: Row, keys: Keys, db: Tables)
    decreases c
  {
    match c
    case Simple(_, _, _) => EvalSimple(c, row)
    case And(cs) => forall i | 0 <= i < |cs| :: True(cs[i], row, keys, db)
    case Or(cs) => exists i | 0 <= i < |cs| :: True(cs[i], row, keys, db)
    case Exists(q, not, flip, _) => flip || SomeMatch(q, row, keys, db) != not
  }

  /** Names and limits of subqueries do not matter to what is true. */
  lemma SameMatch(q: CorrelatedSubquery, alias: string, limit: Option<nat>, row: Row, keys: Keys, db: Tables)
    ensures SomeMatch(q.(subquery := q.subquery.(alias := alias, limit := limit)), row, keys, db) <==>
              SomeMatch(q, row, keys, db)
  {
    var r := q.(subquery := q.subquery.(alias := alias, limit := limit));
    forall child: Row ensures Qualifies(r.subquery, child, keys, db) <==> Qualifies(q.subquery, child, keys, db) {
    }
  }

  lemma {:induction false} UniquifyKeepsTruth(c: Condition, count: nat, row: Row, keys: Keys, db: Tables)
    ensures True(Uniquify(c, count).0, row, keys, db) <==> True(c, row, keys, db)
    decreases c, 1
  {
    match c
    case Simple(_, _, _) =>
    case Exists(q, _, _, _) => SameMatch(q, Numbered(q.subquery.alias, count), q.subquery.limit, row, keys, db);
    case And(cs) => UniquifyAllKeepsTruth(cs, count, row, keys, db);
    case Or(cs) => UniquifyAllKeepsTruth(cs, count, row, keys, db);
  }

  lemma {:induction false} UniquifyAllKeepsTruth(cs: seq<Condition>, count: nat, row: Row, keys: Keys, db: Tables)
    ensures forall i | 0 <= i < |cs| :: True(UniquifyAll(cs, count).0[i], row, keys, db) <==> True(cs[i], row, keys, db)
    decreases cs, 0
  {
    if cs != [] {
      var next := Uniquify(cs[0], count).1;
      UniquifyKeepsTruth(cs[0], count, row, keys, db);
      UniquifyAllKeepsTruth(cs[1..], next, row, keys, db);
      forall i | 0 <= i < |cs| ensures True(UniquifyAll(cs, count).0[i], row, keys, db) <==>
        True(cs[i], row, keys, db) {
        if i > 0 {
          assert UniquifyAll(cs, count).0[i] == UniquifyAll(cs[1..], next).0[i - 1] && cs[i] == cs[1..][i - 1];
        }
      }
    }
  }

  // ----- what the attached relationships are

  ghost function ChildList(q: CorrelatedSubquery, keys: Keys, db: Tables): seq<Node>
    requires Buildable(q.subquery, keys) && Covers(keys, db)
  {
    QueryMeans(q.subquery, keys, db, q.childField)
  }

  /** Attaching changes no row, and no relationship but the attached ones. */
  lemma {:induction false} AttachAllRows(bound: nat, list: seq<CorrelatedSubquery>, keys: Keys, db: Tables,
                                         s: seq<Node>)
    requires FitsIn(list, bound) && ChildrenBuildable(bound, list, keys) && Covers(keys, db)
    ensures |AttachAll(bound, list, keys, db, s)| == |s|
    ensures forall i | 0 <= i < |s| :: AttachAll(bound, list, keys, db, s)[i].row == s[i].row
    ensures forall i, r | 0 <= i < |s| && r in s[i].rels && r !in NamesIn(list) ::
              r in AttachAll(bound, list, keys, db, s)[i].rels
                && AttachAll(bound, list, keys, db, s)[i].rels[r] == s[i].rels[r]
    decreases |list|
  {
    if list != [] {
      var t := Joined(CorrelationOf(list[0]), s, ChildList(list[0], keys, db));
      AttachAllRows(bound, list[1..], keys, db, t);
      var u := AttachAll(bound, list[1..], keys, db, t);
      forall i, r | 0 <= i < |s| && r in s[i].rels && r !in NamesIn(list)
        ensures r in u[i].rels && u[i].rels[r] == s[i].rels[r]
      {
        assert t[i] == Attach(CorrelationOf(list[0]), ChildList(list[0], keys, db), s[i]);
        assert r in t[i].rels && r !in NamesIn(list[1..]) && t[i].rels[r] == s[i].rels[r];
      }
    }
  }

  /** Every attached relationship holds the children of its subquery. */
  lemma {:induction false} AttachAllRels(bound: nat, list: seq<CorrelatedSubquery>, keys: Keys, db: Tables,
                                         s: seq<Node>, names: set<string>, k: nat)
    requires FitsIn(list, bound) && ChildrenBuildable(bound, list, keys) && Covers(keys, db) && NewNames(list, names)
             && k < |list|
    ensures |list[k].parentField| == |list[k].childField| && Buildable(list[k].subquery, keys)
    ensures |AttachAll(bound, list, keys, db, s)| == |s|
    ensures forall i | 0 <= i < |s| ::
              var n := AttachAll(bound, list, keys, db, s)[i];
              RelName(list[k]) in n.rels
                && n.rels[RelName(list[k])]
                  == ChildrenOf(CorrelationOf(list[k]), ChildList(list[k], keys, db), s[i].row)
    decreases |list|
  {
    var t := Joined(CorrelationOf(list[0]), s, ChildList(list[0], keys, db));
    AttachAllRows(bound, list[1..], keys, db, t);
    if k == 0 {
      NamesStayNew(list[1..], names + {RelName(list[0])}, RelName(list[0]));
    } else {
      AttachAllRels(bound, list[1..], keys, db, t, names + {RelName(list[0])}, k - 1);
    }
  }

  lemma {:induction false} NamesStayNew(list: seq<CorrelatedSubquery>, names: set<string>, s: string)
    requires NewNames(list, names) && s in names
    ensures s !in NamesIn(list)
    decreases |list|
  {
    if list != [] { NamesStayNew(list[1..], names + {RelName(list[0])}, s); }
  }

  // ----- the rows before the limit

  ghost function BeforeLimit(ast: AST, keys: Keys, db: Tables): seq<Node>
    requires Buildable(ast, keys) && Covers(keys, db)
  {
    ChildrenFit(ast);
    WhereTrue(Renamed(ast), AttachAll(SizeOf(ast), ExistsChildren(Subqueries(Renamed(ast))), keys, db,
                                      FromCursor(ast, keys, SortBy(OrderOf(ast, keys), Leaves(db[ast.table])))))
  }

  ghost predicate AreRowsOf(s: seq<Node>, ast: AST, keys: Keys, db: Tables) {
    && (forall n | n in s :: Qualifies(ast, n.row, keys, db))
    && forall row: Row | Qualifies(ast, row, keys, db) :: exists n :: n in s && n.row == row
  }

  ghost predicate Keyed(keys: Keys, db: Tables) {
    forall t | t in keys :: t in db && Table(keys[t], db[t])
  }

  // ----- the order

  lemma {:induction false} CompareByConcat(order: Ordering, more: Ordering, a: Row, b: Row)
    ensures CompareBy(order + more, a, b) == if CompareBy(order, a, b) != 0 then CompareBy(order, a, b)
            else CompareBy(more, a, b)
  {
    if order == [] {
      assert order + more == more;
    } else {
      ConcatSplit(order, more);
      OrderLaws(Get(a, order[0].0), Get(b, order[0].0));
      CompareByConcat(order[1..], more, a, b);
    }
  }

  lemma {:induction false} KeyBeforeMeans(primaryKey: Key, orderBy: Ordering, a: Row, b: Row)
    requires AgreeUpTo(orderBy, |orderBy|, a, b)
    ensures CompareBy(Missing(primaryKey, orderBy), a, b) < 0 <==> KeyBefore(primaryKey, a, b)
  {
    if primaryKey != [] {
      var k, rest := primaryKey[0], primaryKey[1..];
      var more := Missing(rest, orderBy);
      KeyBeforeMeans(rest, orderBy, a, b);
      OrderMeans(Get(a, k), Get(b, k));
      OrderLaws(Get(a, k), Get(b, k));
      KeyBeforeCons(primaryKey, a, b);
      if Ordered(orderBy, k) {
        var i :| 0 <= i < |orderBy| && orderBy[i].0 == k;
        assert [] + more == more;
      } else {
        assert ([(k, Asc)] + more)[1..] == more;
      }
    }
  }

  lemma KeyBeforeCons(key: Key, a: Row, b: Row)
    requires key != []
    ensures KeyBefore(key, a, b) <==>
              ValueBefore(Get(a, key[0]), Get(b, key[0]))
                || (Get(a, key[0]) == Get(b, key[0]) && KeyBefore(key[1..], a, b))
  {
    hide ValueBefore;
    var rest := key[1..];
    if KeyBefore(key, a, b) {
      var k :| 0 <= k < |key| && (forall m | 0 <= m < k :: Get(a, key[m]) == Get(b, key[m]))
               && ValueBefore(Get(a, key[k]), Get(b, key[k]));
      if k > 0 {
        assert rest[k - 1] == key[k] && forall m | 0 <= m < k - 1 :: rest[m] == key[m + 1];
      }
    }
    if Get(a, key[0]) == Get(b, key[0]) && KeyBefore(rest, a, b) {
      var k :| 0 <= k < |rest| && (forall m | 0 <= m < k :: Get(a, rest[m]) == Get(b, rest[m]))
               && ValueBefore(Get(a, rest[k]), Get(b, rest[k]));
      assert key[k + 1] == rest[k] && forall m | 0 < m < k + 1 :: key[m] == rest[m - 1];
    }
  }

  /** The order of a result: by the query's ordering, and where that leaves a tie by the primary key. */
  lemma OrderOfMeans(ast: AST, keys: Keys, a: Row, b: Row)
    requires ast.table in keys
    ensures OrderOf(ast, keys)(a, b) < 0 <==> ComesBefore(ast.orderBy, keys[ast.table], a, b)
    ensures OrderOf(ast, keys)(a, b) > 0 <==> ComesBefore(ast.orderBy, keys[ast.table], b, a)
  {
    hide CompareBy, SortsBefore, KeyBefore;
    ComparatorIsTotalOrder(CompleteOrder(keys[ast.table], ast.orderBy));
    HalfOrder(ast, keys, a, b);
    HalfOrder(ast, keys, b, a);
  }

  lemma HalfOrder(ast: AST, keys: Keys, a: Row, b: Row)
    requires ast.table in keys
    ensures OrderOf(ast, keys)(a, b) < 0 <==> ComesBefore(ast.orderBy, keys[ast.table], a, b)
  {
    hide CompareBy, SortsBefore, KeyBefore;
    var order, key := ast.orderBy, keys[ast.table];
    CompareByConcat(order, Missing(key, order), a, b);
    CompareByMeans(order, a, b);
    CompareByLaws(order, a, b);
    if CompareBy(order, a, b) == 0 { KeyBeforeMeans(key, order, a, b); }
  }

  lemma PresentMeans(ast: AST, keys: Keys, bound: Bound, row: Row)
    requires ast.table in keys
    ensures Present(OrderOf(ast, keys), bound.row, bound.exclusive)(row) <==>
              FromBound(ast, keys[ast.table], bound, row)
  {
    hide CompareBy, ComesBefore;
    OrderOfMeans(ast, keys, bound.row, row);
  }

  /** The sorted rows from the cursor on. */
  lemma CursorRows(ast: AST, keys: Keys, db: Tables)
    requires ast.table in keys && Keyed(keys, db)
    ensures var s := FromCursor(ast, keys, SortBy(OrderOf(ast, keys), Leaves(db[ast.table])));
            && Sorted(OrderOf(ast, keys), s) && TotalOrder(OrderOf(ast, keys))
            && forall row: Row :: Leaf(row) in s <==>
                 row in db[ast.table] && (ast.start.Some? ==> FromBound(ast, keys[ast.table], ast.start.value, row))
    ensures forall n | n in FromCursor(ast, keys, SortBy(OrderOf(ast, keys), Leaves(db[ast.table]))) :: n == Leaf(n.row)
  {
    var cmp := OrderOf(ast, keys);
    var all := SortBy(cmp, Leaves(db[ast.table]));
    OrderIsComplete(keys[ast.table], ast.orderBy);
    ComparatorIsTotalOrder(CompleteOrder(keys[ast.table], ast.orderBy));
    TableApart(keys[ast.table], db[ast.table], CompleteOrder(keys[ast.table], ast.orderBy));
    SortFacts(cmp, Leaves(db[ast.table]));
    LeafMembers(db[ast.table]);
    if ast.start.Some? {
      FilteredFacts(cmp, all, OfRow(Present(cmp, ast.start.value.row, ast.start.value.exclusive)));
      forall row: Row
        ensures Present(cmp, ast.start.value.row, ast.start.value.exclusive)(row) <==>
                FromBound(ast, keys[ast.table], ast.start.value, row)
      {
        PresentMeans(ast, keys, ast.start.value, row);
      }
    }
  }

  /** On a node whose relationships answer the subqueries, the condition says what is true of the row. */
  lemma {:induction false} SatIsTrue(c: Condition, n: Node, keys: Keys, db: Tables)
    requires AllExists(Gather(c))
    requires forall e | e in Gather(c) && !e.flip :: NonEmpty(n, RelName(e.related)) <==>
               SomeMatch(e.related, n.row, keys, db)
    ensures Sat(c, n) <==> True(c, n.row, keys, db)
    decreases c, 1
  {
    match c
    case Simple(_, _, _) =>
    case Exists(_, _, _, _) => assert c in Gather(c);
    case And(cs) => AllSatAreTrue(cs, n, keys, db);
    case Or(cs) => AllSatAreTrue(cs, n, keys, db);
  }

  lemma {:induction false} AllSatAreTrue(cs: seq<Condition>, n: Node, keys: Keys, db: Tables)
    requires AllExists(GatherAll(cs))
    requires forall e | e in GatherAll(cs) && !e.flip :: NonEmpty(n, RelName(e.related)) <==>
               SomeMatch(e.related, n.row, keys, db)
    ensures forall i | 0 <= i < |cs| :: Sat(cs[i], n) <==> True(cs[i], n.row, keys, db)
    decreases cs, 0
  {
    if cs != [] {
      var a, b := Gather(cs[0]), GatherAll(cs[1..]);
      assert GatherAll(cs) == a + b;
      GatherFacts(cs[0]);
      GatherAllFacts(cs[1..]);
      SatIsTrue(cs[0], n, keys, db);
      AllSatAreTrue(cs[1..], n, keys, db);
      assert forall i | 0 < i < |cs| :: cs[i] == cs[1..][i - 1];
    }
  }

  lemma {:induction false} ExistsChildAt(list: seq<Condition>, e: Condition) returns (k: nat)
    requires AllExists(list) && e in list && !e.flip
    ensures k < |ExistsChildren(list)|
    ensures ExistsChildren(list)[k] == e.related.(subquery := e.related.subquery.(limit := Some(EXISTS_LIMIT)))
  {
    if e == list[0] {
      k := 0;
    } else {
      HeadTail(list);
      var rest := ExistsChildAt(list[1..], e);
      k := if list[0].flip then rest else rest + 1;
    }
  }

  /** The rows that the joins, the WHERE operators and the cursor let through are those that qualify. */
  lemma {:induction false} RowsBeforeLimit(ast: AST, keys: Keys, db: Tables)
    requires Buildable(ast, keys) && Sensible(ast, keys) && Covers(keys, db) && Keyed(keys, db)
    ensures AreRowsOf(BeforeLimit(ast, keys, db), ast, keys, db)
    ensures TotalOrder(OrderOf(ast, keys)) && Sorted(OrderOf(ast, keys), BeforeLimit(ast, keys, db))
    decreases SizeOf(ast), 1, 0
  {
    hide Sensible, Buildable, ChildrenBuildable, ChildrenSensible, AttachAll, UniquifyAliases, ExistsChildren,
         Subqueries, TotalOrder, Sorted, Qualifies, Table, CompareBy, Present, SortBy, FromCursor, AreRowsOf, Filtered;
    ChildrenAre(ast, keys);
    CursorRows(ast, keys, db);
    var list := ExistsChildren(Subqueries(Renamed(ast)));
    var s := FromCursor(ast, keys, SortBy(OrderOf(ast, keys), Leaves(db[ast.table])));
    var t := AttachAll(SizeOf(ast), list, keys, db, s);
    AttachAllRows(SizeOf(ast), list, keys, db, s);
    SameRowsSorted(OrderOf(ast, keys), s, t);
    if ast.where.None? {
      NoWhere(ast, keys, db, s, t);
    } else {
      var c := Renamed(ast).value;
      FilteredFacts(OrderOf(ast, keys), t, Satisfies(c));
      forall i | 0 <= i < |t| ensures Sat(c, t[i]) <==> True(ast.where.value, t[i].row, keys, db) {
        RelationshipsAnswer(ast, keys, db, s, i);
      }
      WithWhere(ast, keys, db, s, t, c);
    }
  }

  lemma SameRowsSorted(cmp: Comparator, s: seq<Node>, t: seq<Node>)
    requires Sorted(cmp, s) && |s| == |t| && forall i | 0 <= i < |s| :: t[i].row == s[i].row
    ensures Sorted(cmp, t)
  {
  }

  ghost predicate CursorFacts(ast: AST, keys: Keys, db: Tables, s: seq<Node>)
    requires ast.table in keys && ast.table in db
  {
    && (forall row: Row :: Leaf(row) in s <==>
          row in db[ast.table] && (ast.start.Some? ==> FromBound(ast, keys[ast.table], ast.start.value, row)))
    && forall n | n in s :: n == Leaf(n.row)
  }

  lemma NoWhere(ast: AST, keys: Keys, db: Tables, s: seq<Node>, t: seq<Node>)
    requires ast.table in keys && ast.table in db && CursorFacts(ast, keys, db, s) && ast.where.None?
    requires |s| == |t| && forall i | 0 <= i < |s| :: t[i].row == s[i].row
    ensures AreRowsOf(t, ast, keys, db)
  {
    forall n | n in t ensures Qualifies(ast, n.row, keys, db) {
      var i :| 0 <= i < |t| && t[i] == n;
      assert s[i] in s && s[i] == Leaf(n.row);
    }
    forall row: Row | Qualifies(ast, row, keys, db) ensures exists n :: n in t && n.row == row {
      assert Leaf(row) in s;
      var i :| 0 <= i < |s| && s[i] == Leaf(row);
      assert t[i] in t;
    }
  }

  lemma WithWhere(ast: AST, keys: Keys, db: Tables, s: seq<Node>, t: seq<Node>, c: Condition)
    requires ast.table in keys && ast.table in db && CursorFacts(ast, keys, db, s) && ast.where.Some?
    requires |s| == |t| && forall i | 0 <= i < |s| :: t[i].row == s[i].row
    requires forall i | 0 <= i < |t| :: Sat(c, t[i]) <==> True(ast.where.value, t[i].row, keys, db)
    ensures AreRowsOf(Filtered(t, Satisfies(c)), ast, keys, db)
  {
    var f := Filtered(t, Satisfies(c));
    FilteredMembers(t, Satisfies(c));
    forall n | n in f ensures Qualifies(ast, n.row, keys, db) {
      var i :| 0 <= i < |t| && t[i] == n;
      assert s[i] in s && s[i] == Leaf(n.row);
    }
    forall row: Row | Qualifies(ast, row, keys, db) ensures exists n :: n in f && n.row == row {
      assert Leaf(row) in s;
      var i :| 0 <= i < |s| && s[i] == Leaf(row);
      assert t[i] in t && t[i] in f;
    }
  }

  lemma {:induction false} RelationshipsAnswer(ast: AST, keys: Keys, db: Tables, s: seq<Node>, i: nat)
    requires Buildable(ast, keys) && Sensible(ast, keys) && Covers(keys, db) && Keyed(keys, db) && ast.where.Some?
             && i < |s|
    ensures FitsIn(ExistsChildren(Subqueries(Renamed(ast))), SizeOf(ast))
    ensures ChildrenBuildable(SizeOf(ast), ExistsChildren(Subqueries(Renamed(ast))), keys)
    ensures var t := AttachAll(SizeOf(ast), ExistsChildren(Subqueries(Renamed(ast))), keys, db, s);
            |t| == |s| && (Sat(Renamed(ast).value, t[i]) <==> True(ast.where.value, t[i].row, keys, db))
    decreases SizeOf(ast), 0, 1
  {
    hide Sensible, Buildable, ChildrenBuildable, ChildrenSensible, AttachAll, ExistsChildren, Sat, True, Gather,
         Uniquify, Keyed;
    ChildrenAre(ast, keys);
    var c := Renamed(ast).value;
    GatherFacts(c);
    WhereNames(Renamed(ast));
    var list := ExistsChildren(Gather(c));
    var t := AttachAll(SizeOf(ast), list, keys, db, s);
    AttachAllRows(SizeOf(ast), list, keys, db, s);
    forall e | e in Gather(c) && !e.flip ensures NonEmpty(t[i], RelName(e.related)) <==>
      SomeMatch(e.related, t[i].row, keys, db) {
      var k := ExistsChildAt(Gather(c), e);
      AttachAllRels(SizeOf(ast), list, keys, db, s, {}, k);
      ChildSensible(SizeOf(ast), list, keys, k);
      ChildrenExist(list[k], keys, db, s[i].row);
      SameMatch(e.related, e.related.subquery.alias, Some(EXISTS_LIMIT), t[i].row, keys, db);
    }
    SatIsTrue(c, t[i], keys, db);
    UniquifyKeepsTruth(ast.where.value, 0, t[i].row, keys, db);
  }

  lemma {:induction false} ChildSensible(bound: nat, list: seq<CorrelatedSubquery>, keys: Keys, k: nat)
    requires FitsIn(list, bound) && ChildrenBuildable(bound, list, keys) && ChildrenSensible(bound, list, keys)
             && k < |list|
    ensures Buildable(list[k].subquery, keys) && Sensible(list[k].subquery, keys) && SizeOf(list[k].subquery) < bound
    decreases k
  {
    if k > 0 { ChildSensible(bound, list[1..], keys, k - 1); }
  }

  /** The children shown for an existence check are none exactly when no row matches, whatever the limit. */
  lemma {:induction false} ChildrenExist(q: CorrelatedSubquery, keys: Keys, db: Tables, row: Row)
    requires Buildable(q.subquery, keys) && Sensible(q.subquery, keys) && Covers(keys, db) && Keyed(keys, db)
    requires |q.parentField| == |q.childField| && q.subquery.limit.Some? && q.subquery.limit.value > 0
    ensures ChildrenOf(CorrelationOf(q), ChildList(q, keys, db), row) != [] <==> SomeMatch(q, row, keys, db)
    decreases SizeOf(q.subquery), 2, 0
  {
    hide Buildable, Sensible, Qualifies, BeforeLimit, RowsMean, QueryMeans, AttachAll, Keyed, TotalOrder, Sorted,
         Shown, SomeMatch, Covers, ChildrenOf, OrderOf;
    var sub := q.subquery;
    var shown, list, s := RowsMean(sub, keys, db, q.childField), ChildList(q, keys, db), BeforeLimit(sub, keys, db);
    RowsBeforeLimit(sub, keys, db);
    LimitedRows(sub, keys, db, q.childField);
    ListRows(q, keys, db);
    if ChildrenOf(CorrelationOf(q), list, row) != [] {
      ShownMatches(q, keys, db, s, shown, list, row);
    }
    if SomeMatch(q, row, keys, db) {
      MatchIsShown(q, keys, db, s, shown, list, row);
    }
  }

  /** The list of children has the rows that the limit leaves, in their order. */
  lemma ListRows(q: CorrelatedSubquery, keys: Keys, db: Tables)
    requires Buildable(q.subquery, keys) && Covers(keys, db)
    ensures var shown, list := RowsMean(q.subquery, keys, db, q.childField), ChildList(q, keys, db);
            |list| == |shown| && forall i | 0 <= i < |list| :: list[i].row == shown[i].row
    ensures q.subquery.table in keys
  {
    ChildrenFit(q.subquery);
    AttachAllRows(SizeOf(q.subquery), Dedupe(q.subquery.related), keys, db,
                  RowsMean(q.subquery, keys, db, q.childField));
  }

  lemma ShownMatches(q: CorrelatedSubquery, keys: Keys, db: Tables, s: seq<Node>, shown: seq<Node>, list: seq<Node>,
                     row: Row)
    requires |q.parentField| == |q.childField| && AreRowsOf(s, q.subquery, keys, db) && forall n | n in shown :: n in s
    requires |list| == |shown| && forall i | 0 <= i < |list| :: list[i].row == shown[i].row
    requires ChildrenOf(CorrelationOf(q), list, row) != []
    ensures SomeMatch(q, row, keys, db)
  {
    hide Qualifies;
    var j := CorrelationOf(q);
    FilteredMembers(list, ChildOf(j, row));
    var n := ChildrenOf(j, list, row)[0];
    assert n in ChildrenOf(j, list, row);
    var i :| 0 <= i < |list| && list[i] == n;
    assert shown[i] in shown && shown[i] in s;
    assert Qualifies(q.subquery, n.row, keys, db) && IsJoinMatch(row, q.parentField, n.row, q.childField);
  }

  lemma MatchIsShown(q: CorrelatedSubquery, keys: Keys, db: Tables, s: seq<Node>, shown: seq<Node>, list: seq<Node>,
                     row: Row)
    requires |q.parentField| == |q.childField| && AreRowsOf(s, q.subquery, keys, db) && q.subquery.table in keys
    requires TotalOrder(OrderOf(q.subquery, keys)) && Sorted(OrderOf(q.subquery, keys), s)
    requires q.subquery.limit.Some? && q.subquery.limit.value > 0
             && shown == Shown(q.subquery.limit.value, q.childField, Askable(), s)
    requires |list| == |shown| && forall i | 0 <= i < |list| :: list[i].row == shown[i].row
    requires SomeMatch(q, row, keys, db)
    ensures ChildrenOf(CorrelationOf(q), list, row) != []
  {
    hide Qualifies, TotalOrder, Sorted, Shown, OrderOf, Filtered;
    var j := CorrelationOf(q);
    var child: Row :| Qualifies(q.subquery, child, keys, db) && IsJoinMatch(row, q.parentField, child, q.childField);
    var n :| n in s && n.row == child;
    var m := WindowWitness(OrderOf(q.subquery, keys), q.subquery.limit.value, q.childField, s, n, row, q.parentField);
    var i :| 0 <= i < |shown| && shown[i] == m;
    FilteredMembers(list, ChildOf(j, row));
    assert list[i] in list && ChildOf(j, row)(list[i]);
    assert list[i] in ChildrenOf(j, list, row);
  }

  lemma LimitedRows(ast: AST, keys: Keys, db: Tables, partitionKey: Key)
    requires Buildable(ast, keys) && Covers(keys, db) && ast.limit.Some?
    ensures RowsMean(ast, keys, db, partitionKey)
            == Shown(ast.limit.value, partitionKey, Askable(), BeforeLimit(ast, keys, db))
    ensures forall n | n in RowsMean(ast, keys, db, partitionKey) :: n in BeforeLimit(ast, keys, db)
  {
    var s := BeforeLimit(ast, keys, db);
    FilteredMembers(s, InWindow(ast.limit.value, partitionKey, Askable(), s));
  }

  /** Where a partition has a row, its window has one, and it matches the same parents. */
  lemma WindowWitness(cmp: Comparator, limit: nat, childKey: Key, s: seq<Node>, n: Node, row: Row, parentKey: Key)
    returns (m: Node)
    requires TotalOrder(cmp) && Sorted(cmp, s) && n in s && limit > 0 && |parentKey| == |childKey|
    requires IsJoinMatch(row, parentKey, n.row, childKey)
    ensures m in Shown(limit, childKey, Askable(), s) && IsJoinMatch(row, parentKey, m.row, childKey)
  {
    var key := KeyOf(childKey, n.row);
    var part := Part(s, childKey, key);
    FilteredMembers(s, KeyIs(childKey, key));
    assert n in part;
    m := part[0];
    assert m in part;
    assert Window(limit, part)[0] == m;
    forall i | 0 <= i < |childKey| ensures Get(m.row, childKey[i]) == Get(n.row, childKey[i]) {
      assert KeyOf(childKey, m.row)[i] == KeyOf(childKey, n.row)[i];
    }
    forall i | 0 <= i < |key| ensures !key[i].Null? {
      assert ValuesEqual(Get(row, parentKey[i]), Get(n.row, childKey[i]));
    }
    FilteredMembers(s, InWindow(limit, childKey, Askable(), s));
  }

  /** The result of a query without a limit is about exactly the rows that qualify; with a limit, about
      some of them. */
  lemma ResultRows(ast: AST, keys: Keys, db: Tables)
    requires Buildable(ast, keys) && Sensible(ast, keys) && Covers(keys, db) && Keyed(keys, db)
    ensures forall n | n in QueryMeans(ast, keys, db, []) :: Qualifies(ast, n.row, keys, db)
    ensures ast.limit.None? ==> AreRowsOf(QueryMeans(ast, keys, db, []), ast, keys, db)
  {
    hide Sensible, Qualifies, AttachAll, Keyed, TotalOrder, Sorted, Shown, OrderOf, AreRowsOf;
    ChildrenFit(ast);
    RowsBeforeLimit(ast, keys, db);
    var rows, list := RowsMean(ast, keys, db, []), QueryMeans(ast, keys, db, []);
    if ast.limit.Some? { LimitedRows(ast, keys, db, []); }
    AttachAllRows(SizeOf(ast), Dedupe(ast.related), keys, db, rows);
    SameRowsAre(ast, keys, db, BeforeLimit(ast, keys, db), rows, list);
  }

  lemma SameRowsAre(ast: AST, keys: Keys, db: Tables, s: seq<Node>, rows: seq<Node>, list: seq<Node>)
    requires AreRowsOf(s, ast, keys, db) && (forall n | n in rows :: n in s)
    requires |list| == |rows| && forall i | 0 <= i < |list| :: list[i].row == rows[i].row
    ensures forall n | n in list :: Qualifies(ast, n.row, keys, db)
    ensures rows == s ==> AreRowsOf(list, ast, keys, db)
  {
    hide Qualifies;
    forall n | n in list ensures Qualifies(ast, n.row, keys, db) {
      var i :| 0 <= i < |list| && list[i] == n;
      assert rows[i] in rows;
    }
    if rows == s {
      forall row: Row | Qualifies(ast, row, keys, db) ensures exists n :: n in list && n.row == row {
        var n :| n in rows && n.row == row;
        var i :| 0 <= i < |rows| && rows[i] == n;
        assert list[i] in list;
      }
    }
  }
}
