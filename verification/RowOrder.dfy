/** What it means for a value, and for a row, to come before another, said without any comparator (ivm/data.go). */
module RowOrder {
  import opened Values
  import opened Seqs

  // ----- values

  ghost predicate DecidedAt(a: string, b: string, i: nat) {
    i <= |a| && i < |b| && a[..i] == b[..i] && (i == |a| || a[i] < b[i])
  }

  /** The first character in which the texts differ decides; a proper prefix comes first. */
  ghost predicate TextBefore(a: string, b: string) {
    exists i: nat :: DecidedAt(a, b, i)
  }

  /** Numbers by size, texts as in a dictionary, false before true, null before everything else. Between types
      that the source refuses to compare, the types decide. */
  ghost predicate ValueBefore(a: Value, b: Value) {
    match (a, b)
    case (Num(x), Num(y)) => x < y
    case (Str(x), Str(y)) => TextBefore(x, y)
    case (Bool(x), Bool(y)) => !x && y
    case (Null, _) => !b.Null?
    case (_, _) => !b.Null? && ((a.Bool? && !b.Bool?) || (a.Num? && b.Str?))
  }

  /** A common first character decides nothing. */
  lemma DecidedLater(a: string, b: string, i: nat)
    requires a != [] && b != [] && a[0] == b[0]
    ensures DecidedAt(a, b, i + 1) <==> DecidedAt(a[1..], b[1..], i)
    ensures !DecidedAt(a, b, 0)
  {
    if i < |a| && i < |b| {
      assert a[..i + 1] == [a[0]] + a[1..][..i] && b[..i + 1] == [b[0]] + b[1..][..i];
      assert a[1..][..i] == a[..i + 1][1..] && b[1..][..i] == b[..i + 1][1..];
    }
  }

  lemma DecidedNow(a: string, b: string)
    requires a == [] || b == [] || a[0] != b[0]
    ensures TextBefore(a, b) <==> b != [] && (a == [] || a[0] < b[0])
  {
    if b != [] && (a == [] || a[0] < b[0]) { assert DecidedAt(a, b, 0); }
    forall i: nat | i > 0 ensures !DecidedAt(a, b, i) {
      if i <= |a| && i <= |b| { assert a[..i][0] == a[0] && b[..i][0] == b[0]; }
    }
  }

  lemma {:induction false} CompareStringsMeans(a: string, b: string)
    ensures CompareStrings(a, b) < 0 <==> TextBefore(a, b)
    decreases |a|
  {
    hide DecidedAt;
    if a != [] && b != [] && a[0] == b[0] {
      CompareStringsMeans(a[1..], b[1..]);
      HeadTail(a);
      HeadTail(b);
      if i: nat :| DecidedAt(a[1..], b[1..], i) { DecidedLater(a, b, i); }
      if i: nat :| DecidedAt(a, b, i) {
        DecidedLater(a, b, if i > 0 then i - 1 else 0);
      }
    } else {
      DecidedNow(a, b);
    }
  }

  /** The comparison of values is negative exactly if the first comes before the second. */
  lemma OrderMeans(a: Value, b: Value)
    ensures Order(a, b) < 0 <==> ValueBefore(a, b)
    ensures Order(a, b) > 0 <==> ValueBefore(b, a)
  {
    OrderLaws(a, b);
    if a.Str? && b.Str? {
      CompareStringsMeans(a.s, b.s);
      CompareStringsMeans(b.s, a.s);
      CompareStringsLaws(a.s, b.s);
    }
  }

  // ----- rows

  ghost predicate AgreeUpTo(order: Ordering, i: nat, a: Row, b: Row)
    requires i <= |order|
  {
    forall k | 0 <= k < i :: Get(a, order[k].0) == Get(b, order[k].0)
  }

  ghost predicate Earlier(column: (string, Direction), a: Row, b: Row) {
    match column.1
    case Asc => ValueBefore(Get(a, column.0), Get(b, column.0))
    case Desc => ValueBefore(Get(b, column.0), Get(a, column.0))
  }

  /** In the first sort column in which they differ, `a` has the value that comes first, or, where the column is
      sorted in descending order, last. */
  ghost predicate SortsBefore(order: Ordering, a: Row, b: Row) {
    exists i | 0 <= i < |order| :: AgreeUpTo(order, i, a, b) && Earlier(order[i], a, b)
  }

  /** The comparator of an ordering is negative exactly if the first row sorts before the second. */
  lemma {:induction false} CompareByMeans(order: Ordering, a: Row, b: Row)
    ensures CompareBy(order, a, b) < 0 <==> SortsBefore(order, a, b)
    ensures CompareBy(order, a, b) > 0 <==> SortsBefore(order, b, a)
  {
    CompareByLaws(order, a, b);
    CompareByLaws(order, b, a);
    OneWay(order, a, b);
    OneWay(order, b, a);
  }

  lemma {:induction false} OneWay(order: Ordering, a: Row, b: Row)
    ensures CompareBy(order, a, b) < 0 <==> SortsBefore(order, a, b)
  {
    if order != [] {
      var x, y, rest := Get(a, order[0].0), Get(b, order[0].0), order[1..];
      OneWay(rest, a, b);
      OrderMeans(x, y);
      OrderLaws(x, y);
      if SortsBefore(rest, a, b) && x == y {
        var i :| 0 <= i < |rest| && AgreeUpTo(rest, i, a, b) && Earlier(rest[i], a, b);
        assert order[i + 1] == rest[i] && forall k | 0 < k < i + 1 :: order[k] == rest[k - 1];
      }
      if SortsBefore(order, a, b) {
        var i :| 0 <= i < |order| && AgreeUpTo(order, i, a, b) && Earlier(order[i], a, b);
        if i > 0 {
          assert rest[i - 1] == order[i] && forall k | 0 <= k < i - 1 :: rest[k] == order[k + 1];
        }
      }
    }
  }

  // ----- ties

  ghost predicate KeyBefore(key: seq<string>, a: Row, b: Row) {
    exists k | 0 <= k < |key| ::
      (forall m | 0 <= m < k :: Get(a, key[m]) == Get(b, key[m])) && ValueBefore(Get(a, key[k]), Get(b, key[k]))
  }

  /** By the ordering, and where that leaves a tie by the key, ascending. */
  ghost predicate ComesBefore(order: Ordering, key: seq<string>, a: Row, b: Row) {
    SortsBefore(order, a, b) || (AgreeUpTo(order, |order|, a, b) && KeyBefore(key, a, b))
  }
}
