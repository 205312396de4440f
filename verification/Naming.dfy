/** Renaming the subqueries of a condition so that no two share a relationship (builder/builder.go). */
module Naming {
  import opened Ast
  import opened ChainPush

  // ----- numbers as text

  function Digit(d: nat): char
    requires d < 10
  {
    "0123456789"[d]
  }

  function Decimal(n: nat): string {
    if n < 10 then [Digit(n)] else Decimal(n / 10) + [Digit(n % 10)]
  }

  lemma {:induction false} DecimalHasNoUnderscore(n: nat)
    ensures Decimal(n) != [] && '_' !in Decimal(n)
  {
    if n >= 10 { DecimalHasNoUnderscore(n / 10); }
  }

  lemma {:induction false} DecimalInjective(m: nat, n: nat)
    requires Decimal(m) == Decimal(n)
    ensures m == n
  {
    var a, b := Decimal(m), Decimal(n);
    assert a[|a| - 1] == Digit(m % 10) && b[|b| - 1] == Digit(n % 10);
    if m >= 10 || n >= 10 {
      DecimalHasNoUnderscore(m / 10);
      DecimalHasNoUnderscore(n / 10);
      assert m >= 10 ==> a[..|a| - 1] == Decimal(m / 10);
      assert n >= 10 ==> b[..|b| - 1] == Decimal(n / 10);
      DecimalInjective(m / 10, n / 10);
    }
  }

  /** The number that a text of digits stands for. */
  function Number(s: string): nat {
    if s == "" then 0
    else
      var last := s[|s| - 1];
      Number(s[..|s| - 1]) * 10 + if '0' <= last <= '9' then last as nat - '0' as nat else 0
  }

  lemma {:induction false} DecimalMeans(n: nat)
    ensures Number(Decimal(n)) == n
    ensures forall c | c in Decimal(n) :: '0' <= c <= '9'
    ensures n > 0 ==> Decimal(n)[0] != '0'
    ensures Decimal(n) != ""
  {
    if n >= 10 {
      DecimalMeans(n / 10);
      assert Decimal(n)[..|Decimal(n)| - 1] == Decimal(n / 10);
    } else {
      assert Decimal(n)[..0] == "";
    }
  }

  function Numbered(name: string, n: nat): string {
    name + "_" + Decimal(n)
  }

  /** Whatever the names, different numbers make different names. */
  lemma NumberedApart(a: string, m: nat, b: string, n: nat)
    requires Numbered(a, m) == Numbered(b, n)
    ensures m == n
  {
    LastUnderscore(a, m);
    LastUnderscore(b, n);
    assert |a| == |b|;
    assert Numbered(a, m)[|a| + 1..] == Decimal(m) && Numbered(b, n)[|b| + 1..] == Decimal(n);
    DecimalInjective(m, n);
  }

  lemma LastUnderscore(name: string, n: nat)
    ensures |name| < |Numbered(name, n)| && Numbered(name, n)[|name|] == '_'
    ensures forall k | |name| < k < |Numbered(name, n)| :: Numbered(name, n)[k] != '_'
  {
    DecimalHasNoUnderscore(n);
    forall k | |name| < k < |Numbered(name, n)| ensures Numbered(name, n)[k] != '_' {
      assert Numbered(name, n)[k] == Decimal(n)[k - |name| - 1];
    }
  }

  // ----- renaming

  /** The condition with its subqueries numbered from `count` on, and the next free number. */
  function Uniquify(c: Condition, count: nat): (Condition, nat)
    decreases c, 1
  {
    match c
    case Simple(_, _, _) => (c, count)
    case Exists(q, not, flip, scalar) =>
      (Exists(q.(subquery := q.subquery.(alias := Numbered(q.subquery.alias, count))), not, flip, scalar), count + 1)
    case And(cs) => var r := UniquifyAll(cs, count); (And(r.0), r.1)
    case Or(cs) => var r := UniquifyAll(cs, count); (Or(r.0), r.1)
  }

  function UniquifyAll(cs: seq<Condition>, count: nat): (r: (seq<Condition>, nat))
    ensures |r.0| == |cs|
    decreases cs, 0
  {
    if cs == [] then ([], count)
    else
      var head := Uniquify(cs[0], count);
      var tail := UniquifyAll(cs[1..], head.1);
      ([head.0] + tail.0, tail.1)
  }

  /** Only a conjunction or disjunction is renamed; a single subquery keeps its name. */
  function UniquifyAliases(c: Condition): Condition {
    if c.And? || c.Or? then Uniquify(c, 0).0 else c
  }

  /** Every name in the set carries a number of the range. */
  ghost predicate NumberedWithin(names: set<string>, low: nat, high: nat) {
    forall s | s in names :: exists a: string, n: nat :: low <= n < high && s == Numbered(a, n)
  }

  lemma NumberedDisjoint(A: set<string>, B: set<string>, low: nat, mid: nat, high: nat)
    requires NumberedWithin(A, low, mid) && NumberedWithin(B, mid, high)
    ensures A !! B
  {
    forall s | s in A && s in B ensures false {
      var a: string, m: nat :| low <= m < mid && s == Numbered(a, m);
      var b: string, n: nat :| mid <= n < high && s == Numbered(b, n);
      NumberedApart(a, m, b, n);
    }
  }

  lemma NumberedMore(A: set<string>, B: set<string>, low: nat, mid: nat, high: nat)
    requires low <= mid <= high && NumberedWithin(A, low, mid) && NumberedWithin(B, mid, high)
    ensures NumberedWithin(A + B, low, high)
  {
    forall s | s in A + B ensures exists a: string, n: nat :: low <= n < high && s == Numbered(a, n) {
      if s in A {
        var a: string, n: nat :| low <= n < mid && s == Numbered(a, n);
      } else {
        var a: string, n: nat :| mid <= n < high && s == Numbered(a, n);
      }
    }
  }

  /** After the renaming no two subqueries of a condition share a relationship name. */
  lemma {:induction false} UniquifyIsDistinct(c: Condition, count: nat)
    ensures DistinctNames(Uniquify(c, count).0) && count <= Uniquify(c, count).1
    ensures NumberedWithin(Names(Uniquify(c, count).0), count, Uniquify(c, count).1)
    decreases c, 1
  {
    match c
    case Simple(_, _, _) =>
    case Exists(q, _, _, _) =>
      var s := Numbered(q.subquery.alias, count);
      assert s != "";
    case And(cs) => UniquifyAllDistinct(cs, count);
    case Or(cs) => UniquifyAllDistinct(cs, count);
  }

  lemma {:induction false} UniquifyAllDistinct(cs: seq<Condition>, count: nat)
    ensures DistinctNamesOf(UniquifyAll(cs, count).0) && count <= UniquifyAll(cs, count).1
    ensures NumberedWithin(NamesOf(UniquifyAll(cs, count).0), count, UniquifyAll(cs, count).1)
    decreases cs, 0
  {
    if cs != [] {
      var head := Uniquify(cs[0], count);
      var tail := UniquifyAll(cs[1..], head.1);
      UniquifyIsDistinct(cs[0], count);
      UniquifyAllDistinct(cs[1..], head.1);
      NumberedDisjoint(Names(head.0), NamesOf(tail.0), count, head.1, tail.1);
      NumberedMore(Names(head.0), NamesOf(tail.0), count, head.1, tail.1);
      assert UniquifyAll(cs, count).0[1..] == tail.0;
    }
  }

  lemma AliasesDistinct(c: Condition)
    ensures DistinctNames(UniquifyAliases(c))
  {
    UniquifyIsDistinct(c, 0);
  }
}
