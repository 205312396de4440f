/** Column values, rows and comparators (ivm/data.go). */
module Values {
  datatype Option<+T> = None | Some(value: T) {
    function GetOr(other: T): T {
      if Some? then value else other
    }
  }

  /** A column value. Every numeric type is one number type, as after decoding. */
  datatype Value = Null | Bool(b: bool) | Num(n: real) | Str(s: string)

  type Row = map<string, Value>

  datatype Direction = Asc | Desc
  type Ordering = seq<(string, Direction)>

  /** Negative, zero or positive, as the source's Comparator. */
  type Comparator = (Row, Row) -> int

  /** Reading a column that the row does not have gives the null value. */
  function Get(row: Row, column: string): Value {
    if column in row then row[column] else Null
  }

  // ----- comparing values

  function CompareStrings(a: string, b: string): int {
    if a == b then 0
    else if a == [] then -1
    else if b == [] then 1
    else if a[0] < b[0] then -1
    else if b[0] < a[0] then 1
    else CompareStrings(a[1..], b[1..])
  }

  /** None is the panic on two non-null values of different types. */
  function CompareValues(a: Value, b: Value): Option<int> {
    if a == b then Some(0)
    else match (a, b)
      case (Num(x), Num(y)) => Some(if x < y then -1 else 1)
      case (Str(x), Str(y)) => Some(CompareStrings(x, y))
      case (Bool(x), Bool(_)) => Some(if x then 1 else -1)
      case (Null, _) => Some(-1)
      case (_, Null) => Some(1)
      case (_, _) => None
  }

  /** Null is unequal to everything, itself included: a null key joins nothing. */
  predicate ValuesEqual(a: Value, b: Value) {
    !a.Null? && !b.Null? && a == b
  }

  function Kind(v: Value): nat {
    match v case Null => 0 case Bool(_) => 1 case Num(_) => 2 case Str(_) => 3
  }

  /** CompareValues completed, where it would panic, by the order of the types. */
  function Order(a: Value, b: Value): int {
    match CompareValues(a, b)
    case Some(c) => c
    case None => Kind(a) - Kind(b)
  }

  lemma {:induction false} CompareStringsLaws(a: string, b: string)
    ensures CompareStrings(a, b) == -CompareStrings(b, a)
    ensures CompareStrings(a, b) == 0 <==> a == b
    decreases |a|
  {
    if a != b && a != [] && b != [] && a[0] == b[0] {
      CompareStringsLaws(a[1..], b[1..]);
      assert a == [a[0]] + a[1..] && b == [b[0]] + b[1..];
    }
  }

  lemma {:induction false} CompareStringsTransitive(a: string, b: string, c: string)
    requires CompareStrings(a, b) <= 0 && CompareStrings(b, c) <= 0
    ensures CompareStrings(a, c) <= 0
    decreases |a|
  {
    if a != b && b != c && a != [] && b != [] && c != [] && a[0] == b[0] == c[0] {
      CompareStringsTransitive(a[1..], b[1..], c[1..]);
    } else if a != [] && c != [] && b == [] {
      CompareStringsLaws(a, b);
    }
  }

  /** The value comparison panics exactly on two non-null values of different types;
      it is zero exactly on equal values, which differs from ValuesEqual only on null. */
  lemma CompareValuesMeaning(a: Value, b: Value)
    ensures CompareValues(a, b).None? <==> Kind(a) != Kind(b) && !a.Null? && !b.Null?
    ensures CompareValues(a, b) == Some(0) <==> a == b
    ensures ValuesEqual(a, b) <==> CompareValues(a, b) == Some(0) && !a.Null?
  {
    if a.Str? && b.Str? {
      CompareStringsLaws(a.s, b.s);
    }
  }

  lemma OrderLaws(a: Value, b: Value)
    ensures Order(a, b) < 0 <==> Order(b, a) > 0
    ensures Order(a, b) == 0 <==> a == b
  {
    if a.Str? && b.Str? {
      CompareStringsLaws(a.s, b.s);
    }
  }

  lemma OrderTransitive(a: Value, b: Value, c: Value)
    requires Order(a, b) <= 0 && Order(b, c) <= 0
    ensures Order(a, c) <= 0
  {
    if a.Str? && b.Str? && c.Str? {
      CompareStringsTransitive(a.s, b.s, c.s);
    }
  }

  // ----- comparing rows

  function CompareBy(order: Ordering, a: Row, b: Row): int {
    if order == [] then 0
    else
      var c := Order(Get(a, order[0].0), Get(b, order[0].0));
      if c == 0 then CompareBy(order[1..], a, b)
      else if order[0].1.Desc? then -c
      else c
  }

  function MakeComparator(order: Ordering): Comparator {
    (a: Row, b: Row) => CompareBy(order, a, b)
  }

  /** Marks the rows at which transitivity is used. */
  ghost predicate Chain(a: Row, b: Row, c: Row) { true }

  ghost predicate TotalOrder(cmp: Comparator) {
    && (forall a: Row, b: Row {:trigger cmp(a, b)} :: cmp(a, b) < 0 <==> cmp(b, a) > 0)
    && (forall a: Row {:trigger cmp(a, a)} :: cmp(a, a) == 0)
    && (forall a: Row, b: Row, c: Row {:trigger Chain(a, b, c)} ::
          cmp(a, b) <= 0 && cmp(b, c) <= 0 ==> cmp(a, c) <= 0)
  }

  lemma Transitive(cmp: Comparator, a: Row, b: Row, c: Row)
    requires TotalOrder(cmp)
    requires cmp(a, b) <= 0 && cmp(b, c) <= 0
    ensures cmp(a, c) <= 0
    ensures cmp(a, b) < 0 || cmp(b, c) < 0 ==> cmp(a, c) < 0
  {
    assert Chain(a, b, c) && Chain(b, c, a) && Chain(c, a, b);
  }

  lemma {:induction false} CompareByLaws(order: Ordering, a: Row, b: Row)
    ensures CompareBy(order, a, b) < 0 <==> CompareBy(order, b, a) > 0
    ensures CompareBy(order, a, b) == 0 <==> forall i | 0 <= i < |order| :: Get(a, order[i].0) == Get(b, order[i].0)
  {
    if order != [] {
      OrderLaws(Get(a, order[0].0), Get(b, order[0].0));
      OrderLaws(Get(b, order[0].0), Get(a, order[0].0));
      CompareByLaws(order[1..], a, b);
      assert forall i | 0 <= i < |order| - 1 :: order[1..][i] == order[i + 1];
      assert forall i | 0 < i < |order| :: order[i] == order[1..][i - 1];
    }
  }

  lemma {:induction false} CompareByTransitive(order: Ordering, a: Row, b: Row, c: Row)
    requires CompareBy(order, a, b) <= 0 && CompareBy(order, b, c) <= 0
    ensures CompareBy(order, a, c) <= 0
  {
    if order != [] {
      var f := order[0].0;
      var x, y, z := Get(a, f), Get(b, f), Get(c, f);
      OrderLaws(x, y); OrderLaws(y, z); OrderLaws(x, z);
      if order[0].1.Desc? {
        OrderTransitive(z, y, x);
      } else {
        OrderTransitive(x, y, z);
      }
      if x == y == z {
        CompareByTransitive(order[1..], a, b, c);
      }
    }
  }

  /** Every comparator of the engine is a total preorder on rows. */
  lemma ComparatorIsTotalOrder(order: Ordering)
    ensures TotalOrder(MakeComparator(order))
  {
    var cmp := MakeComparator(order);
    forall a: Row, b: Row ensures cmp(a, b) < 0 <==> cmp(b, a) > 0 { CompareByLaws(order, a, b); }
    forall a: Row ensures cmp(a, a) == 0 { CompareByLaws(order, a, a); }
    forall a: Row, b: Row, c: Row | cmp(a, b) <= 0 && cmp(b, c) <= 0 ensures cmp(a, c) <= 0 {
      CompareByTransitive(order, a, b, c);
    }
  }

  /** The comparator of the source: it panics (None) on the first sort column whose two
      values have different types, and `reverse` turns every result around. */
  method Compare(order: Ordering, reverse: bool, a: Row, b: Row) returns (c: Option<int>)
    ensures c.Some? ==> c.value == if reverse then -CompareBy(order, a, b) else CompareBy(order, a, b)
    ensures (forall i | 0 <= i < |order| :: CompareValues(Get(a, order[i].0), Get(b, order[i].0)).Some?) ==> c.Some?
  {
    for i := 0 to |order|
      invariant CompareBy(order, a, b) == CompareBy(order[i..], a, b)
    {
      var x, y := Get(a, order[i].0), Get(b, order[i].0);
      OrderLaws(x, y);
      match CompareValues(x, y)
      case None => return None;
      case Some(v) =>
        if v != 0 {
          var directed := if order[i].1.Desc? then -v else v;
          return Some(if reverse then -directed else directed);
        }
      assert order[i..][1..] == order[i + 1..];
    }
    return Some(0);
  }

  /** Two rows that sort alike sort alike against every third. */
  lemma SameSign(cmp: Comparator, a: Row, b: Row, x: Row)
    requires TotalOrder(cmp) && cmp(a, b) == 0
    ensures cmp(a, x) < 0 <==> cmp(b, x) < 0
    ensures cmp(a, x) == 0 <==> cmp(b, x) == 0
    ensures cmp(x, a) < 0 <==> cmp(x, b) < 0
    ensures cmp(x, a) == 0 <==> cmp(x, b) == 0
  {
    assert cmp(b, a) == 0;
    if cmp(x, a) <= 0 { Transitive(cmp, x, a, b); }
    if cmp(x, b) <= 0 { Transitive(cmp, x, b, a); }
    if cmp(a, x) <= 0 { Transitive(cmp, b, a, x); }
    if cmp(b, x) <= 0 { Transitive(cmp, a, b, x); }
  }
}
