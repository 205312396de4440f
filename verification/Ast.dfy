/** Query syntax (builder/ast.go) and the meaning of simple conditions (builder/filter.go). */
module Ast {
  import opened Values
  import opened JoinUtils

  datatype AST = AST(
    table: string,
    alias: string,
    where: Option<Condition>,
    related: seq<CorrelatedSubquery>,
    start: Option<Bound>,
    limit: Option<nat>,
    orderBy: Ordering)

  datatype Bound = Bound(row: Row, exclusive: bool)

  datatype CorrelatedSubquery = CorrelatedSubquery(parentField: Key, childField: Key, subquery: AST)

  datatype Condition =
    | Simple(op: Operator, left: ValuePos, right: ValuePos)
    | And(conditions: seq<Condition>)
    | Or(conditions: seq<Condition>)
    | Exists(related: CorrelatedSubquery, not: bool, flip: bool, scalar: bool)

  datatype ValuePos = Column(name: string) | Literal(value: Value) | LiteralList(values: seq<Value>)

  datatype Operator = Is | IsNot | Eq | Ne | Lt | Gt | Le | Ge | In | NotIn | Like | NotLike

  function Resolve(vp: ValuePos, row: Row): Value {
    match vp
    case Column(name) => Get(row, name)
    case Literal(v) => v
    case LiteralList(_) => Null
  }

  /** The LIKE matcher, `%` for any stretch and `_` for one character. */
  predicate LikeMatch(s: string, p: string)
    decreases |p|, |s|
  {
    if p == "" then s == ""
    else if p[0] == '%' then LikeMatch(s, p[1..]) || (s != "" && LikeMatch(s[1..], p))
    else s != "" && (p[0] == '_' || p[0] == s[0]) && LikeMatch(s[1..], p[1..])
  }

  /** A leading `%` takes any stretch of the text. */
  lemma {:induction false} LikeAnyStretch(s: string, p: string)
    requires p != "" && p[0] == '%'
    ensures LikeMatch(s, p) <==> exists i | 0 <= i <= |s| :: LikeMatch(s[i..], p[1..])
    decreases |s|
  {
    assert s[0..] == s;
    if s != "" {
      LikeAnyStretch(s[1..], p);
      forall i | 0 <= i <= |s[1..]| ensures s[1..][i..] == s[i + 1..] {
      }
      forall i | 0 < i <= |s| ensures s[i..] == s[1..][i - 1..] {
      }
    }
  }

  /** The matcher of the source: from character `si` of the text and `pi` of the pattern on. */
  method LikeMatcher(s: string, p: string, si: nat, pi: nat) returns (matched: bool)
    requires si <= |s| && pi <= |p|
    ensures matched <==> LikeMatch(s[si..], p[pi..])
    decreases |p| - pi
  {
    var i: nat, j: nat := si, pi;
    while j < |p|
      invariant i <= |s| && pi <= j <= |p| && (LikeMatch(s[si..], p[pi..]) <==> LikeMatch(s[i..], p[j..]))
    {
      assert p[j..][1..] == p[j + 1..] && (i < |s| ==> s[i..][1..] == s[i + 1..]);
      if p[j] == '%' {
        matched := AnyStretch(s, p, i, j);
        return;
      }
      if i >= |s| || (p[j] != '_' && s[i] != p[j]) { return false; }
      i, j := i + 1, j + 1;
    }
    return i == |s|;
  }

  method AnyStretch(s: string, p: string, si: nat, pi: nat) returns (matched: bool)
    requires si <= |s| && pi < |p| && p[pi] == '%'
    ensures matched <==> LikeMatch(s[si..], p[pi..])
    decreases |p| - pi, 0
  {
    LikeAnyStretch(s[si..], p[pi..]);
    assert p[pi..][1..] == p[pi + 1..];
    assert forall k | 0 <= k <= |s| - si :: s[si..][k..] == s[si + k..];
    for i := si to |s| + 1
      invariant forall k | si <= k < i :: !LikeMatch(s[k..], p[pi + 1..])
    {
      var found := LikeMatcher(s, p, i, pi + 1);
      if found {
        assert LikeMatch(s[si..][i - si..], p[pi..][1..]);
        return true;
      }
    }
    forall k | 0 <= k <= |s[si..]| ensures !LikeMatch(s[si..][k..], p[pi..][1..]) {
      assert !LikeMatch(s[si + k..], p[pi + 1..]);
    }
    return false;
  }

  /** Only IS and IS NOT see null; every other operator is false on it. A list equals no column value. */
  predicate EvalOp(op: Operator, left: Value, right: ValuePos, row: Row) {
    var r, list := Resolve(right, row), right.LiteralList?;
    var known := !left.Null? && (list || !r.Null?);
    match op
    case Is => !list && left == r
    case IsNot => list || left != r
    case In => known && list && left in right.values
    case NotIn => known && !(list && left in right.values)
    case Eq => known && !list && left == r
    case Ne => known && (list || left != r)
    case Lt => known && !list && Order(left, r) < 0
    case Gt => known && !list && Order(left, r) > 0
    case Le => known && !list && Order(left, r) <= 0
    case Ge => known && !list && Order(left, r) >= 0
    case Like => left.Str? && r.Str? && LikeMatch(left.s, r.s)
    case NotLike => left.Str? && r.Str? && !LikeMatch(left.s, r.s)
  }

  predicate EvalSimple(c: Condition, row: Row)
    requires c.Simple?
  {
    EvalOp(c.op, Resolve(c.left, row), c.right, row)
  }

  /** The name of the relationship that a subquery becomes. */
  function RelName(q: CorrelatedSubquery): string {
    if q.subquery.alias == "" then q.subquery.table else q.subquery.alias
  }

  predicate ContainsSubquery(c: Condition) {
    match c
    case Simple(_, _, _) => false
    case Exists(_, _, _, _) => true
    case And(cs) => exists i | 0 <= i < |cs| :: ContainsSubquery(cs[i])
    case Or(cs) => exists i | 0 <= i < |cs| :: ContainsSubquery(cs[i])
  }
}
