/** Replacing scalar EXISTS subqueries by literals before a query is built (builder/resolve_scalar.go). */
module ScalarSubqueries {
  import opened Values
  import opened Views
  import opened JoinUtils
  import opened Ast
  import opened FilterChain
  import opened Database
  import opened Builder
  import opened BuilderWiring
  import opened Meaning
  import opened Truth

  type UniqueKeys = map<string, seq<Key>>

  /** Runs a subquery: None is no row, otherwise the value of the field in the first row. */
  type Executor = (AST, string) -> Option<Value>

  // ----- simple subqueries

  /** The columns that the condition pins to literals, through conjunctions only; of two pins the later wins. */
  function Collect(c: Condition, pinned: map<string, Value>): map<string, Value>
    decreases c, 1
  {
    match c
    case Simple(op, left, right) =>
      if op.Eq? && left.Column? && right.Literal? then pinned[left.name := right.value] else pinned
    case And(cs) => CollectAll(cs, pinned)
    case _ => pinned
  }

  function CollectAll(cs: seq<Condition>, pinned: map<string, Value>): map<string, Value>
    decreases cs, 0
  {
    if cs == [] then pinned else CollectAll(cs[1..], Collect(cs[0], pinned))
  }

  predicate IsSimpleSubquery(ast: AST, unique: UniqueKeys) {
    && ast.table in unique && ast.where.Some?
    && var pinned := Collect(ast.where.value, map[]);
    && pinned != map[]
    && exists i | 0 <= i < |unique[ast.table]| :: unique[ast.table][i] != [] && Covered(unique[ast.table][i], pinned)
  }

  predicate Covered(key: Key, pinned: map<string, Value>) {
    forall i | 0 <= i < |key| :: key[i] in pinned
  }

  /** Two rows of a table that agree, without null, on a unique key are one row. */
  ghost predicate TrulyUnique(unique: UniqueKeys, db: Tables) {
    forall t | t in unique && t in db :: forall key | key in unique[t] :: UniqueIn(key, db[t])
  }

  ghost predicate UniqueIn(key: Key, rows: seq<Row>) {
    forall a: Row, b: Row | a in rows && b in rows
      && (forall i | 0 <= i < |key| :: ValuesEqual(Get(a, key[i]), Get(b, key[i]))) :: a == b
  }

  predicate Pins(pinned: map<string, Value>, row: Row) {
    forall k | k in pinned :: ValuesEqual(Get(row, k), pinned[k])
  }

  lemma {:induction false} CollectedHold(c: Condition, pinned: map<string, Value>, row: Row, keys: Keys, db: Tables)
    requires True(c, row, keys, db) && Pins(pinned, row)
    ensures Pins(Collect(c, pinned), row)
    decreases c, 1
  {
    match c
    case And(cs) => AllCollectedHold(cs, pinned, row, keys, db);
    case _ =>
  }

  lemma {:induction false} AllCollectedHold(cs: seq<Condition>, pinned: map<string, Value>, row: Row, keys: Keys,
                                            db: Tables)
    requires (forall i | 0 <= i < |cs| :: True(cs[i], row, keys, db)) && Pins(pinned, row)
    ensures Pins(CollectAll(cs, pinned), row)
    decreases cs, 0
  {
    if cs != [] {
      CollectedHold(cs[0], pinned, row, keys, db);
      AllCollectedHold(cs[1..], Collect(cs[0], pinned), row, keys, db);
    }
  }

  /** Some conjunct of the condition says that the column equals a literal. */
  predicate PinsColumn(c: Condition, column: string) {
    exists e :: e in Conjuncts(c) && e.Simple? && e.op == Eq && e.left == Column(column) && e.right.Literal?
  }

  lemma {:induction false} CollectMeans(c: Condition, pinned: map<string, Value>)
    ensures forall k :: k in Collect(c, pinned) <==> k in pinned || PinsColumn(c, k)
    decreases c, 1
  {
    match c
    case And(cs) =>
      CollectAllMeans(cs, pinned);
    case _ =>
      assert Conjuncts(c) == [c] && c in [c];
  }

  lemma {:induction false} CollectAllMeans(cs: seq<Condition>, pinned: map<string, Value>)
    ensures forall k :: k in CollectAll(cs, pinned) <==> k in pinned || PinsColumn(And(cs), k)
    decreases cs, 0
  {
    hide Collect;
    assert Conjuncts(And(cs)) == AllConjuncts(cs);
    if cs != [] {
      CollectMeans(cs[0], pinned);
      CollectAllMeans(cs[1..], Collect(cs[0], pinned));
      assert Conjuncts(And(cs[1..])) == AllConjuncts(cs[1..]);
    }
  }

  /** A subquery is simple exactly if its conjuncts pin every column of some unique key of its table to literals. */
  lemma SimpleIff(ast: AST, unique: UniqueKeys)
    ensures IsSimpleSubquery(ast, unique) <==>
            && ast.table in unique && ast.where.Some?
            && exists key :: key in unique[ast.table] && key != [] && forall k | k in key ::
              PinsColumn(ast.where.value, k)
  {
    hide PinsColumn;
    if ast.table in unique && ast.where.Some? {
      var pinned := Collect(ast.where.value, map[]);
      CollectMeans(ast.where.value, map[]);
      if key :| key in unique[ast.table] && key != [] && forall k | k in key :: PinsColumn(ast.where.value, k) {
        var i :| 0 <= i < |unique[ast.table]| && unique[ast.table][i] == key;
        assert key[0] in pinned && Covered(unique[ast.table][i], pinned);
      }
      if i :| 0 <= i < |unique[ast.table]| && unique[ast.table][i] != [] && Covered(unique[ast.table][i], pinned) {
        var key := unique[ast.table][i];
        forall k | k in key ensures PinsColumn(ast.where.value, k) {
          var j :| 0 <= j < |key| && key[j] == k;
        }
        assert key in unique[ast.table];
      }
    }
  }

  /** A simple subquery is about at most one row. */
  lemma SimpleIsAtMostOne(ast: AST, unique: UniqueKeys, a: Row, b: Row, keys: Keys, db: Tables)
    requires IsSimpleSubquery(ast, unique) && TrulyUnique(unique, db)
    requires Qualifies(ast, a, keys, db) && Qualifies(ast, b, keys, db)
    ensures a == b
  {
    var pinned := Collect(ast.where.value, map[]);
    CollectedHold(ast.where.value, map[], a, keys, db);
    CollectedHold(ast.where.value, map[], b, keys, db);
    var i :| 0 <= i < |unique[ast.table]| && unique[ast.table][i] != [] && Covered(unique[ast.table][i], pinned);
    var key := unique[ast.table][i];
    assert key in unique[ast.table] && UniqueIn(key, db[ast.table]);
  }

  // ----- the executor

  /** What the engine answers for a subquery: the field of the first row of its result. */
  ghost function Execute(ast: AST, field: string, keys: Keys, db: Tables): Option<Value>
    requires Buildable(ast, keys) && Covers(keys, db)
  {
    var nodes := QueryMeans(ast, keys, db, []);
    if nodes == [] then None else Some(Get(nodes[0].row, field))
  }

  /** The answer is the field of a row that qualifies; no answer means that no row does, or that the
      subquery's own limit is zero. */
  ghost predicate Answers(answer: Option<Value>, ast: AST, field: string, keys: Keys, db: Tables) {
    match answer
    case None => ast.limit == Some(0) || forall row: Row :: !Qualifies(ast, row, keys, db)
    case Some(v) => exists row: Row :: Qualifies(ast, row, keys, db) && v == Get(row, field)
  }

  lemma EngineAnswers(ast: AST, field: string, keys: Keys, db: Tables)
    requires Buildable(ast, keys) && Sensible(ast, keys) && Covers(keys, db) && Keyed(keys, db)
    ensures Answers(Execute(ast, field, keys, db), ast, field, keys, db)
  {
    hide Buildable, Sensible, Qualifies, QueryMeans, Keyed;
    ResultRows(ast, keys, db);
    var nodes := QueryMeans(ast, keys, db, []);
    if nodes != [] {
      assert nodes[0] in nodes;
    } else if ast.limit.Some? && ast.limit.value > 0 {
      EmptyResult(ast, keys, db);
    }
  }

  lemma EmptyResult(ast: AST, keys: Keys, db: Tables)
    requires Buildable(ast, keys) && Sensible(ast, keys) && Covers(keys, db) && Keyed(keys, db)
    requires ast.limit.Some? && ast.limit.value > 0 && QueryMeans(ast, keys, db, []) == []
    ensures forall row: Row :: !Qualifies(ast, row, keys, db)
  {
    hide Qualifies, TotalOrder, Sorted, OrderOf, Keyed, Sensible, BeforeLimit;
    ChildrenFit(ast);
    RowsBeforeLimit(ast, keys, db);
    LimitedRows(ast, keys, db, []);
    AttachAllRows(SizeOf(ast), Dedupe(ast.related), keys, db, RowsMean(ast, keys, db, []));
    forall row: Row | Qualifies(ast, row, keys, db) ensures false {
      var n :| n in BeforeLimit(ast, keys, db) && n.row == row;
      var m := WindowWitness(OrderOf(ast, keys), ast.limit.value, [], BeforeLimit(ast, keys, db), n, row, []);
    }
  }

  // ----- the rewriting

  function AlwaysFalse(): Condition {
    Simple(Eq, Literal(Num(1.0)), Literal(Num(0.0)))
  }

  function ResolveAst(ast: AST, unique: UniqueKeys, execute: Executor): AST
    decreases ast, 1
  {
    ast.(where := if ast.where.Some? then Some(ResolveCondition(ast.where.value, unique, execute)) else None,
         related := ResolveRelated(ast.related, unique, execute))
  }

  function ResolveRelated(list: seq<CorrelatedSubquery>, unique: UniqueKeys, execute: Executor): seq<CorrelatedSubquery>
    decreases list, 0
  {
    if list == [] then []
    else
      [list[0].(subquery := ResolveAst(list[0].subquery, unique, execute))]
      + ResolveRelated(list[1..], unique, execute)
  }

  function ResolveCondition(c: Condition, unique: UniqueKeys, execute: Executor): Condition
    decreases c, 1
  {
    match c
    case Simple(_, _, _) => c
    case And(cs) => And(ResolveConditions(cs, unique, execute))
    case Or(cs) => Or(ResolveConditions(cs, unique, execute))
    case Exists(q, not, flip, scalar) =>
      if scalar && (q.parentField == [] || q.childField == []) then c
      else
        var r := q.(subquery := ResolveAst(q.subquery, unique, execute));
        if scalar && IsSimpleSubquery(r.subquery, unique) then Literally(r, not, execute(r.subquery, r.childField[0]))
        else Exists(r, not, flip, scalar)
  }

  function ResolveConditions(cs: seq<Condition>, unique: UniqueKeys, execute: Executor): (r: seq<Condition>)
    ensures |r| == |cs|
    decreases cs, 0
  {
    if cs == [] then [] else [ResolveCondition(cs[0], unique, execute)] + ResolveConditions(cs[1..], unique, execute)
  }

  function Literally(q: CorrelatedSubquery, not: bool, answer: Option<Value>): Condition
    requires q.parentField != []
  {
    if answer.None? || answer.value.Null? then AlwaysFalse()
    else Simple(if not then IsNot else Eq, Column(q.parentField[0]), Literal(answer.value))
  }

  /** After the rewriting no scalar subquery is left that could have been replaced. */
  lemma {:induction false} NoneLeft(c: Condition, unique: UniqueKeys, execute: Executor)
    ensures forall e | e in Gather(ResolveCondition(c, unique, execute)) ::
              && e.Exists?
              && (e.scalar && e.related.parentField != [] && e.related.childField != [] ==>
                    !IsSimpleSubquery(e.related.subquery, unique))
    decreases c, 1
  {
    match c
    case Simple(_, _, _) =>
    case And(cs) => NoneLeftOf(cs, unique, execute);
    case Or(cs) => NoneLeftOf(cs, unique, execute);
    case Exists(q, not, flip, scalar) =>
  }

  lemma {:induction false} NoneLeftOf(cs: seq<Condition>, unique: UniqueKeys, execute: Executor)
    ensures forall e | e in GatherAll(ResolveConditions(cs, unique, execute)) ::
              && e.Exists?
              && (e.scalar && e.related.parentField != [] && e.related.childField != [] ==>
                    !IsSimpleSubquery(e.related.subquery, unique))
    decreases cs, 0
  {
    hide ResolveCondition, Gather, IsSimpleSubquery;
    if cs != [] {
      NoneLeft(cs[0], unique, execute);
      NoneLeftOf(cs[1..], unique, execute);
      var r := ResolveConditions(cs, unique, execute);
      assert r[1..] == ResolveConditions(cs[1..], unique, execute);
    }
  }

  // ----- one subquery

  ghost predicate SameTruth(a: Condition, b: Condition, keys: Keys, db: Tables) {
    forall row: Row :: True(a, row, keys, db) <==> True(b, row, keys, db)
  }

  /** With an answer that is not null, EXISTS and NOT EXISTS both become the right comparison.
      Without one they become false, which is right exactly for EXISTS when no qualifying row has a
      value in the field: NOT EXISTS is then wrong on every row. */
  lemma LiterallyIff(q: CorrelatedSubquery, not: bool, answer: Option<Value>, keys: Keys, db: Tables)
    requires |q.parentField| == |q.childField| == 1
    requires Answers(answer, q.subquery, q.childField[0], keys, db)
    requires forall a: Row, b: Row | Qualifies(q.subquery, a, keys, db) && Qualifies(q.subquery, b, keys, db) :: a == b
    ensures SameTruth(Literally(q, not, answer), Exists(q, not, false, true), keys, db) <==>
            (answer.Some? && !answer.value.Null?)
            || (!not && forall child: Row | Qualifies(q.subquery, child, keys, db) :: Get(child, q.childField[0]).Null?)
  {
    hide Qualifies;
    var e, pf, cf := Exists(q, not, false, true), q.parentField[0], q.childField[0];
    if answer.Some? && !answer.value.Null? {
      var child: Row :| Qualifies(q.subquery, child, keys, db) && answer.value == Get(child, cf);
      forall row: Row ensures True(Literally(q, not, answer), row, keys, db) <==> True(e, row, keys, db) {
        assert SomeMatch(q, row, keys, db) <==> IsJoinMatch(row, q.parentField, child, q.childField);
        assert IsJoinMatch(row, q.parentField, child, q.childField) <==> ValuesEqual(Get(row, pf), answer.value);
      }
    } else if !not && (forall child: Row | Qualifies(q.subquery, child, keys, db) :: Get(child, cf).Null?) {
      forall row: Row ensures True(Literally(q, not, answer), row, keys, db) <==> True(e, row, keys, db) {
        assert !True(Literally(q, not, answer), row, keys, db);
        forall child: Row | Qualifies(q.subquery, child, keys, db)
          ensures !IsJoinMatch(row, q.parentField, child, q.childField) {
          assert !ValuesEqual(Get(row, pf), Get(child, cf));
        }
      }
    } else if not {
      WrongForNot(q, answer, keys, db);
    } else {
      var child: Row :| Qualifies(q.subquery, child, keys, db) && !Get(child, cf).Null?;
      var row: Row := map[pf := Get(child, cf)];
      assert IsJoinMatch(row, q.parentField, child, q.childField);
      assert SomeMatch(q, row, keys, db);
      assert !True(Literally(q, not, answer), row, keys, db) && True(e, row, keys, db);
    }
  }

  lemma WrongForNot(q: CorrelatedSubquery, answer: Option<Value>, keys: Keys, db: Tables)
    requires |q.parentField| == |q.childField| == 1 && (answer.None? || answer.value.Null?)
    ensures !SameTruth(Literally(q, true, answer), Exists(q, true, false, true), keys, db)
  {
    hide Qualifies;
    var row: Row := map[];
    assert !SomeMatch(q, row, keys, db) by {
      forall child: Row ensures !IsJoinMatch(row, q.parentField, child, q.childField) {
        assert !ValuesEqual(Get(row, q.parentField[0]), Get(child, q.childField[0]));
      }
    }
    assert !True(Literally(q, true, answer), row, keys, db) && True(Exists(q, true, false, true), row, keys, db);
  }

  // ----- whole queries

  /** Every scalar subquery of the condition, at every depth, is a single-column EXISTS that is not
      flipped and whose own limit is not zero. */
  ghost predicate Plain(c: Condition)
    decreases c, 1
  {
    match c
    case Simple(_, _, _) => true
    case And(cs) => AllPlain(cs)
    case Or(cs) => AllPlain(cs)
    case Exists(q, not, flip, scalar) =>
      && (q.subquery.where.Some? ==> Plain(q.subquery.where.value))
      && (scalar ==> !not && !flip && |q.parentField| == |q.childField| == 1 && q.subquery.limit != Some(0))
  }

  ghost predicate AllPlain(cs: seq<Condition>)
    decreases cs, 0
  {
    cs == [] || (Plain(cs[0]) && AllPlain(cs[1..]))
  }

  /** Every subquery of the condition that the rewriting executes, with the field it is executed for, meets `ok`. */
  ghost predicate EachExecuted(c: Condition, unique: UniqueKeys, execute: Executor, ok: (AST, string) -> bool)
    decreases c, 1
  {
    match c
    case Simple(_, _, _) => true
    case And(cs) => AllExecuted(cs, unique, execute, ok)
    case Or(cs) => AllExecuted(cs, unique, execute, ok)
    case Exists(q, not, flip, scalar) =>
      && (q.subquery.where.Some? ==> EachExecuted(q.subquery.where.value, unique, execute, ok))
      && var ast := ResolveAst(q.subquery, unique, execute);
         (scalar && q.parentField != [] && q.childField != [] && IsSimpleSubquery(ast, unique) ==>
          ok(ast, q.childField[0]))
  }

  ghost predicate AllExecuted(cs: seq<Condition>, unique: UniqueKeys, execute: Executor, ok: (AST, string) -> bool)
    decreases cs, 0
  {
    cs == [] || (EachExecuted(cs[0], unique, execute, ok) && AllExecuted(cs[1..], unique, execute, ok))
  }

  lemma {:induction false} ExecutedMore(c: Condition, unique: UniqueKeys, execute: Executor,
                                        ok: (AST, string) -> bool, more: (AST, string) -> bool)
    requires EachExecuted(c, unique, execute, ok) && forall ast: AST, field: string | ok(ast, field) :: more(ast, field)
    ensures EachExecuted(c, unique, execute, more)
    decreases c, 1
  {
    match c
    case Simple(_, _, _) =>
    case And(cs) => AllExecutedMore(cs, unique, execute, ok, more);
    case Or(cs) => AllExecutedMore(cs, unique, execute, ok, more);
    case Exists(q, _, _, _) =>
      if q.subquery.where.Some? { ExecutedMore(q.subquery.where.value, unique, execute, ok, more); }
  }

  lemma {:induction false} AllExecutedMore(cs: seq<Condition>, unique: UniqueKeys, execute: Executor,
                                           ok: (AST, string) -> bool, more: (AST, string) -> bool)
    requires AllExecuted(cs, unique, execute, ok) && forall ast: AST, field: string | ok(ast, field) :: more(ast, field)
    ensures AllExecuted(cs, unique, execute, more)
    decreases cs, 0
  {
    if cs != [] {
      ExecutedMore(cs[0], unique, execute, ok, more);
      AllExecutedMore(cs[1..], unique, execute, ok, more);
    }
  }

  /** The executor answers rightly for this subquery. */
  ghost function RightAnswer(execute: Executor, keys: Keys, db: Tables): (AST, string) -> bool {
    (ast: AST, field: string) => Answers(execute(ast, field), ast, field, keys, db)
  }

  /** The executor answers rightly for the subqueries of the condition that are executed. */
  ghost predicate Faithful(c: Condition, unique: UniqueKeys, execute: Executor, keys: Keys, db: Tables) {
    EachExecuted(c, unique, execute, RightAnswer(execute, keys, db))
  }

  lemma {:induction false} ResolvedQualifies(ast: AST, row: Row, unique: UniqueKeys, execute: Executor, keys: Keys,
                                             db: Tables)
    requires TrulyUnique(unique, db)
             && (ast.where.Some? ==> Plain(ast.where.value) && Faithful(ast.where.value, unique, execute, keys, db))
    ensures Qualifies(ResolveAst(ast, unique, execute), row, keys, db) <==> Qualifies(ast, row, keys, db)
    decreases ast, 1
  {
    if ast.where.Some? { ResolvedIsTrue(ast.where.value, row, unique, execute, keys, db); }
  }

  /** Replacing the scalar subqueries of a condition, at every depth, leaves it true of the same rows. */
  lemma {:induction false} ResolvedIsTrue(c: Condition, row: Row, unique: UniqueKeys, execute: Executor, keys: Keys,
                                          db: Tables)
    requires Plain(c) && TrulyUnique(unique, db) && Faithful(c, unique, execute, keys, db)
    ensures True(ResolveCondition(c, unique, execute), row, keys, db) <==> True(c, row, keys, db)
    decreases c, 1
  {
    hide TrulyUnique, Qualifies, Answers;
    match c
    case Simple(_, _, _) =>
    case And(cs) => AllResolvedTrue(cs, row, unique, execute, keys, db);
    case Or(cs) => AllResolvedTrue(cs, row, unique, execute, keys, db);
    case Exists(q, not, flip, scalar) =>
      var r := q.(subquery := ResolveAst(q.subquery, unique, execute));
      forall child: Row ensures Qualifies(r.subquery, child, keys, db) <==> Qualifies(q.subquery, child, keys, db) {
        ResolvedQualifies(q.subquery, child, unique, execute, keys, db);
      }
      assert SomeMatch(r, row, keys, db) <==> SomeMatch(q, row, keys, db);
      if scalar && IsSimpleSubquery(r.subquery, unique) {
        ScalarIsTrue(r, row, unique, execute, keys, db);
      }
  }

  lemma {:induction false} AllResolvedTrue(cs: seq<Condition>, row: Row, unique: UniqueKeys, execute: Executor,
                                           keys: Keys, db: Tables)
    requires AllPlain(cs) && TrulyUnique(unique, db) && AllExecuted(cs, unique, execute, RightAnswer(execute, keys, db))
    ensures forall i | 0 <= i < |cs| :: True(ResolveConditions(cs, unique, execute)[i], row, keys, db) <==>
              True(cs[i], row, keys, db)
    decreases cs, 0
  {
    hide TrulyUnique, True, Answers;
    if cs != [] {
      ResolvedIsTrue(cs[0], row, unique, execute, keys, db);
      AllResolvedTrue(cs[1..], row, unique, execute, keys, db);
      assert forall i | 0 < i < |cs| :: cs[i] == cs[1..][i - 1];
    }
  }

  lemma ScalarIsTrue(r: CorrelatedSubquery, row: Row, unique: UniqueKeys, execute: Executor, keys: Keys, db: Tables)
    requires IsSimpleSubquery(r.subquery, unique) && TrulyUnique(unique, db)
    requires r.childField != [] && Answers(execute(r.subquery, r.childField[0]), r.subquery, r.childField[0], keys, db)
    requires |r.parentField| == |r.childField| == 1 && r.subquery.limit != Some(0)
    ensures True(Literally(r, false, execute(r.subquery, r.childField[0])), row, keys, db) <==>
              SomeMatch(r, row, keys, db)
  {
    hide Qualifies, IsSimpleSubquery, TrulyUnique;
    var answer := execute(r.subquery, r.childField[0]);
    forall a: Row, b: Row | Qualifies(r.subquery, a, keys, db) && Qualifies(r.subquery, b, keys, db) ensures a == b {
      SimpleIsAtMostOne(r.subquery, unique, a, b, keys, db);
    }
    LiterallyIff(r, false, answer, keys, db);
    assert SameTruth(Literally(r, false, answer), Exists(r, false, false, true), keys, db);
    assert True(Literally(r, false, answer), row, keys, db) <==> True(Exists(r, false, false, true), row, keys, db);
  }

  // ----- the engine's executor

  /** The engine itself as the executor; a subquery that cannot be built has no answer. */
  ghost function EngineExecutor(keys: Keys, db: Tables): Executor
    requires Covers(keys, db)
  {
    (ast: AST, field: string) => if Buildable(ast, keys) then Execute(ast, field, keys, db) else None
  }

  ghost function CanBuild(keys: Keys): (AST, string) -> bool {
    (ast: AST, field: string) => Buildable(ast, keys) && Sensible(ast, keys)
  }

  /** With the engine as the executor, the rewritten condition is true of the same rows, provided only that
      the subqueries it executes can be built and are sensible. */
  lemma EngineResolvesTrue(c: Condition, row: Row, unique: UniqueKeys, keys: Keys, db: Tables)
    requires Covers(keys, db) && Keyed(keys, db) && Plain(c) && TrulyUnique(unique, db)
    requires EachExecuted(c, unique, EngineExecutor(keys, db), CanBuild(keys))
    ensures True(ResolveCondition(c, unique, EngineExecutor(keys, db)), row, keys, db) <==> True(c, row, keys, db)
  {
    hide Buildable, Sensible, Keyed, TrulyUnique, True, Answers, Execute, Plain;
    var execute := EngineExecutor(keys, db);
    forall ast: AST, field: string | CanBuild(keys)(ast, field) ensures RightAnswer(execute, keys, db)(ast, field) {
      EngineAnswers(ast, field, keys, db);
    }
    ExecutedMore(c, unique, execute, CanBuild(keys), RightAnswer(execute, keys, db));
    ResolvedIsTrue(c, row, unique, execute, keys, db);
  }
}
