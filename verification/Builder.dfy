/** From a query to a pipeline over source connections (builder/builder.go). */
module Builder {
  import opened Values
  import opened Seqs
  import opened JoinUtils
  import opened Ast
  import opened FilterChain
  import opened ChainPush
  import opened SourceRules
  import opened JoinSpec
  import opened Pipeline
  import opened Database
  import opened Naming

  const EXISTS_LIMIT: nat := 3

  // ----- the completed ordering

  predicate Ordered(orderBy: Ordering, column: string) {
    exists i | 0 <= i < |orderBy| :: orderBy[i].0 == column
  }

  function Missing(primaryKey: Key, orderBy: Ordering): Ordering {
    if primaryKey == [] then []
    else (if Ordered(orderBy, primaryKey[0]) then [] else [(primaryKey[0], Asc)]) + Missing(primaryKey[1..], orderBy)
  }

  function CompleteOrder(primaryKey: Key, orderBy: Ordering): Ordering {
    orderBy + Missing(primaryKey, orderBy)
  }

  lemma MissingFrom(primaryKey: Key, orderBy: Ordering, i: nat)
    requires i < |primaryKey|
    ensures var rest := Missing(primaryKey[i + 1..], orderBy);
            Missing(primaryKey[i..], orderBy) == if Ordered(orderBy, primaryKey[i]) then rest
              else [(primaryKey[i], Asc)] + rest
  {
    PrefixOne(primaryKey, i);
  }

  method AddPrimaryKeys(primaryKey: Key, orderBy: Ordering) returns (r: Ordering)
    ensures r == CompleteOrder(primaryKey, orderBy)
  {
    hide Ordered;
    var toAdd: Ordering := [];
    for i := 0 to |primaryKey|
      invariant toAdd + Missing(primaryKey[i..], orderBy) == Missing(primaryKey, orderBy)
    {
      MissingFrom(primaryKey, orderBy, i);
      if !Ordered(orderBy, primaryKey[i]) {
        AppendOne(toAdd, (primaryKey[i], Asc), Missing(primaryKey[i + 1..], orderBy));
        toAdd := toAdd + [(primaryKey[i], Asc)];
      }
    }
    if |toAdd| == 0 { return orderBy; }
    return orderBy + toAdd;
  }

  lemma {:induction false} MissingCompletes(primaryKey: Key, orderBy: Ordering, k: string)
    requires k in primaryKey
    ensures Ordered(orderBy, k) || Ordered(Missing(primaryKey, orderBy), k)
  {
    var rest, m := Missing(primaryKey[1..], orderBy), Missing(primaryKey, orderBy);
    if k == primaryKey[0] {
      if !Ordered(orderBy, k) { assert m[0].0 == k; }
    } else {
      MissingCompletes(primaryKey[1..], orderBy, k);
      if !Ordered(orderBy, k) {
        var i :| 0 <= i < |rest| && rest[i].0 == k;
        assert m[i + |m| - |rest|].0 == k;
      }
    }
  }

  /** The completed ordering names every key column, and only breaks ties of the given one. */
  lemma OrderIsComplete(primaryKey: Key, orderBy: Ordering)
    ensures Completes(CompleteOrder(primaryKey, orderBy), primaryKey)
    ensures forall a: Row, b: Row :: CompareBy(orderBy, a, b) != 0 ==>
              CompareBy(CompleteOrder(primaryKey, orderBy), a, b) == CompareBy(orderBy, a, b)
  {
    var full := CompleteOrder(primaryKey, orderBy);
    forall k | k in primaryKey ensures exists i :: 0 <= i < |full| && full[i].0 == k {
      MissingCompletes(primaryKey, orderBy, k);
      if Ordered(orderBy, k) {
        var i :| 0 <= i < |orderBy| && orderBy[i].0 == k;
        assert full[i].0 == k;
      } else {
        var i :| 0 <= i < |Missing(primaryKey, orderBy)| && Missing(primaryKey, orderBy)[i].0 == k;
        assert full[|orderBy| + i].0 == k;
      }
    }
    forall a: Row, b: Row | CompareBy(orderBy, a, b) != 0 ensures CompareBy(full, a, b) == CompareBy(orderBy, a, b) {
      TiesOnly(orderBy, Missing(primaryKey, orderBy), a, b);
    }
  }

  lemma {:induction false} TiesOnly(order: Ordering, more: Ordering, a: Row, b: Row)
    requires CompareBy(order, a, b) != 0
    ensures CompareBy(order + more, a, b) == CompareBy(order, a, b)
  {
    ConcatSplit(order, more);
    OrderLaws(Get(a, order[0].0), Get(b, order[0].0));
    if Order(Get(a, order[0].0), Get(b, order[0].0)) == 0 { TiesOnly(order[1..], more, a, b); }
  }

  /** Orderings that the builder has already completed on the way down stay as they are. */
  lemma CompleteTwice(primaryKey: Key, orderBy: Ordering)
    ensures CompleteOrder(primaryKey, CompleteOrder(primaryKey, orderBy)) == CompleteOrder(primaryKey, orderBy)
  {
    var full := CompleteOrder(primaryKey, orderBy);
    OrderIsComplete(primaryKey, orderBy);
    NothingMissing(primaryKey, full);
  }

  lemma {:induction false} NothingMissing(primaryKey: Key, orderBy: Ordering)
    requires Completes(orderBy, primaryKey)
    ensures Missing(primaryKey, orderBy) == []
  {
    if primaryKey != [] {
      HeadTail(primaryKey);
      NothingMissing(primaryKey[1..], orderBy);
      assert primaryKey[0] in primaryKey;
      var i :| 0 <= i < |orderBy| && orderBy[i].0 == primaryKey[0];
      assert Ordered(orderBy, primaryKey[0]);
    }
  }

  // ----- sizes, for the recursion into subqueries

  function SizeOf(ast: AST): nat
    decreases ast, 2
  {
    1 + (if ast.where.Some? then SizeOfCondition(ast.where.value) else 0) + SizeOfRelated(ast.related)
  }

  function SizeOfRelated(list: seq<CorrelatedSubquery>): nat
    decreases list, 0
  {
    if list == [] then 0 else SizeOf(list[0].subquery) + SizeOfRelated(list[1..])
  }

  function SizeOfCondition(c: Condition): nat
    decreases c, 1
  {
    match c
    case Simple(_, _, _) => 0
    case Exists(q, _, _, _) => SizeOf(q.subquery)
    case And(cs) => SizeOfConditions(cs)
    case Or(cs) => SizeOfConditions(cs)
  }

  function SizeOfConditions(cs: seq<Condition>): nat
    decreases cs, 0
  {
    if cs == [] then 0 else SizeOfCondition(cs[0]) + SizeOfConditions(cs[1..])
  }

  lemma {:induction false} UniquifySize(c: Condition, count: nat)
    ensures SizeOfCondition(Uniquify(c, count).0) == SizeOfCondition(c)
    decreases c, 1
  {
    match c
    case Simple(_, _, _) =>
    case Exists(_, _, _, _) =>
    case And(cs) => UniquifyAllSize(cs, count);
    case Or(cs) => UniquifyAllSize(cs, count);
  }

  lemma {:induction false} UniquifyAllSize(cs: seq<Condition>, count: nat)
    ensures SizeOfConditions(UniquifyAll(cs, count).0) == SizeOfConditions(cs)
    decreases cs, 0
  {
    if cs != [] {
      UniquifySize(cs[0], count);
      UniquifyAllSize(cs[1..], Uniquify(cs[0], count).1);
      assert UniquifyAll(cs, count).0[1..] == UniquifyAll(cs[1..], Uniquify(cs[0], count).1).0;
    }
  }

  // ----- gathering

  /** The subqueries of a condition, from left to right. */
  function Gather(c: Condition): seq<Condition>
    decreases c, 1
  {
    match c
    case Simple(_, _, _) => []
    case Exists(_, _, _, _) => [c]
    case And(cs) => GatherAll(cs)
    case Or(cs) => GatherAll(cs)
  }

  function GatherAll(cs: seq<Condition>): seq<Condition>
    decreases cs, 0
  {
    if cs == [] then [] else Gather(cs[0]) + GatherAll(cs[1..])
  }

  predicate AllExists(list: seq<Condition>) {
    forall i | 0 <= i < |list| :: list[i].Exists?
  }

  lemma {:induction false} GatherFacts(c: Condition)
    ensures AllExists(Gather(c))
    ensures forall e | e in Gather(c) :: e.Exists? && SizeOf(e.related.subquery) <= SizeOfCondition(c)
    ensures Gather(c) != [] <==> ContainsSubquery(c)
    ensures forall s | s in Names(c) :: exists e :: e in Gather(c) && e.Exists? && !e.flip && RelName(e.related) == s
    decreases c, 1
  {
    match c
    case Simple(_, _, _) =>
    case Exists(_, _, _, _) => assert c in Gather(c);
    case And(cs) => GatherAllFacts(cs);
    case Or(cs) => GatherAllFacts(cs);
  }

  lemma {:induction false} GatherAllFacts(cs: seq<Condition>)
    ensures AllExists(GatherAll(cs))
    ensures forall e | e in GatherAll(cs) :: e.Exists? && SizeOf(e.related.subquery) <= SizeOfConditions(cs)
    ensures GatherAll(cs) != [] <==> exists i | 0 <= i < |cs| :: ContainsSubquery(cs[i])
    ensures forall s | s in NamesOf(cs) :: exists e ::
              e in GatherAll(cs) && e.Exists? && !e.flip && RelName(e.related) == s
    decreases cs, 0
  {
    if cs != [] {
      GatherFacts(cs[0]);
      GatherAllFacts(cs[1..]);
      ForallSplit(cs, (c: Condition) => !ContainsSubquery(c));
    }
  }

  /** The children of the EXISTS joins: every subquery that is not flipped, with the limit of an existence check. */
  function ExistsChildren(list: seq<Condition>): seq<CorrelatedSubquery>
    requires AllExists(list)
  {
    if list == [] then []
    else
      var rest := ExistsChildren(list[1..]);
      if list[0].flip then rest
      else [list[0].related.(subquery := list[0].related.subquery.(limit := Some(EXISTS_LIMIT)))] + rest
  }

  /** Of related subqueries with one alias the last is built, in the place of the first. */
  function Dedupe(related: seq<CorrelatedSubquery>): seq<CorrelatedSubquery> {
    if related == [] then []
    else PutLast(Dedupe(related[..|related| - 1]), related[|related| - 1])
  }

  function PutLast(list: seq<CorrelatedSubquery>, q: CorrelatedSubquery): seq<CorrelatedSubquery> {
    if list == [] then [q]
    else if RelName(list[0]) == RelName(q) then [q] + list[1..]
    else [list[0]] + PutLast(list[1..], q)
  }

  // ----- the columns whose edits are split

  function KeyColumns(list: seq<CorrelatedSubquery>): set<string> {
    if list == [] then {} else Columns(list[0].parentField) + KeyColumns(list[1..])
  }

  function GatheredColumns(list: seq<Condition>): set<string>
    requires AllExists(list)
  {
    if list == [] then {} else Columns(list[0].related.parentField) + GatheredColumns(list[1..])
  }

  function CollectSplitEditKeys(where: Option<Condition>, related: seq<CorrelatedSubquery>,
                                partitionKey: Key): set<string> {
    GatheredColumns(Subqueries(where)) + KeyColumns(related) + Columns(partitionKey)
  }

  function Subqueries(where: Option<Condition>): (list: seq<Condition>)
    ensures AllExists(list)
  {
    match where
    case None => []
    case Some(c) => GatherFacts(c); Gather(c)
  }

  // ----- the pipeline

  function Renamed(ast: AST): Option<Condition> {
    match ast.where
    case None => None
    case Some(c) => Some(UniquifyAliases(c))
  }

  /** The predicate that the connection applies. */
  function SourceFilter(where: Option<Condition>): Option<Row -> bool> {
    match where
    case None => None
    case Some(c) =>
      match StripSubqueries(c)
      case None => None
      case Some(s) => Some((row: Row) => Pred(s, row))
  }

  function Connect(ast: AST, primaryKey: Key, partitionKey: Key): Connection {
    Connection(CompleteOrder(primaryKey, ast.orderBy), SourceFilter(Renamed(ast)),
               CollectSplitEditKeys(Renamed(ast), ast.related, partitionKey), 0, true)
  }

  predicate FitsIn(list: seq<CorrelatedSubquery>, bound: nat) {
    forall i | 0 <= i < |list| :: SizeOf(list[i].subquery) < bound
  }

  /** Every table exists; the other panics of the builder are keys of different lengths in one join. */
  predicate Buildable(ast: AST, keys: Keys)
    decreases SizeOf(ast), 1, 0
  {
    && ast.table in keys
    && (ChildrenFit(ast); ChildrenBuildable(SizeOf(ast), ExistsChildren(Subqueries(Renamed(ast))), keys)
        && ChildrenBuildable(SizeOf(ast), Dedupe(ast.related), keys))
  }

  predicate ChildrenBuildable(bound: nat, list: seq<CorrelatedSubquery>, keys: Keys)
    requires FitsIn(list, bound)
    decreases bound, 0, |list|
  {
    list == [] || (|list[0].parentField| == |list[0].childField| && Buildable(list[0].subquery, keys)
                   && ChildrenBuildable(bound, list[1..], keys))
  }

  lemma ChildrenFit(ast: AST)
    ensures FitsIn(ExistsChildren(Subqueries(Renamed(ast))), SizeOf(ast)) && FitsIn(Dedupe(ast.related), SizeOf(ast))
  {
    if ast.where.Some? {
      var c := ast.where.value;
      UniquifySize(c, 0);
      GatherFacts(UniquifyAliases(c));
      ExistsFit(Gather(UniquifyAliases(c)), SizeOf(ast));
    }
    RelatedFit(ast.related);
    DedupeFits(ast.related, SizeOf(ast));
  }

  lemma {:induction false} ExistsFit(list: seq<Condition>, bound: nat)
    requires AllExists(list) && forall e | e in list :: SizeOf(e.related.subquery) < bound
    ensures FitsIn(ExistsChildren(list), bound)
  {
    if list != [] {
      ExistsFit(list[1..], bound);
    }
  }

  lemma {:induction false} RelatedFit(list: seq<CorrelatedSubquery>)
    ensures forall i | 0 <= i < |list| :: SizeOf(list[i].subquery) <= SizeOfRelated(list)
  {
    if list != [] {
      RelatedFit(list[1..]);
      assert forall i | 0 < i < |list| :: list[i] == list[1..][i - 1];
    }
  }

  lemma {:induction false} DedupeFits(list: seq<CorrelatedSubquery>, bound: nat)
    requires FitsIn(list, bound)
    ensures FitsIn(Dedupe(list), bound)
  {
    if list != [] {
      DedupeFits(list[..|list| - 1], bound);
      PutLastFits(Dedupe(list[..|list| - 1]), list[|list| - 1], bound);
    }
  }

  lemma {:induction false} PutLastFits(list: seq<CorrelatedSubquery>, q: CorrelatedSubquery, bound: nat)
    requires FitsIn(list, bound) && SizeOf(q.subquery) < bound
    ensures FitsIn(PutLast(list, q), bound)
  {
    if list != [] && RelName(list[0]) != RelName(q) { PutLastFits(list[1..], q, bound); }
  }

  /** The pipeline of a query, and the connections opened so far with those that it opens. */
  function Build(ast: AST, keys: Keys, partitionKey: Key, feeds: seq<Feed>): (Pipe, seq<Feed>)
    requires Buildable(ast, keys)
    decreases SizeOf(ast), 2, 0
  {
    ChildrenFit(ast);
    var (rows, grown) := BuildRows(ast, keys, partitionKey, feeds);
    JoinAll(SizeOf(ast), Dedupe(ast.related), keys, rows, grown)
  }

  /** The part of the pipeline that decides which rows are shown: source, cursor, WHERE and LIMIT. */
  function BuildRows(ast: AST, keys: Keys, partitionKey: Key, feeds: seq<Feed>): (Pipe, seq<Feed>)
    requires Buildable(ast, keys)
    decreases SizeOf(ast), 1, 0
  {
    ChildrenFit(ast);
    var (joined, grown) := JoinAll(SizeOf(ast), ExistsChildren(Subqueries(Renamed(ast))), keys,
                                   Skipped(ast, Input(|feeds|)),
                                     feeds + [Feed(ast.table, Connect(ast, keys[ast.table], partitionKey))]);
    (Taken(ast, partitionKey, Checked(ast, joined)), grown)
  }

  function Skipped(ast: AST, p: Pipe): Pipe {
    if ast.start.Some? then Unary(SkipTo(ast.start.value.row, ast.start.value.exclusive), p) else p
  }

  /** The operators of the WHERE clause, which are needed only when it has subqueries. */
  function Checked(ast: AST, p: Pipe): Pipe {
    if Renamed(ast).Some? && Subqueries(Renamed(ast)) != [] then Unary(Where(Renamed(ast).value), p) else p
  }

  function Taken(ast: AST, partitionKey: Key, p: Pipe): Pipe {
    if ast.limit.Some? then Unary(Limit(ast.limit.value, partitionKey), p) else p
  }

  function JoinAll(bound: nat, list: seq<CorrelatedSubquery>, keys: Keys, parent: Pipe, feeds: seq<Feed>): (Pipe,
      seq<Feed>)
    requires FitsIn(list, bound) && ChildrenBuildable(bound, list, keys)
    decreases bound, 0, |list|
  {
    if list == [] then (parent, feeds)
    else
      var q := list[0];
      var (child, grown) := Build(q.subquery, keys, q.childField, feeds);
      JoinAll(bound, list[1..], keys, JoinOf(parent, child, Correlation(q.parentField, q.childField, RelName(q))),
              grown)
  }
}
